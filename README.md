# Asset inventory: a Dafny model

The system is a small network asset inventory. A Flask API (`api.py`) over a
SQLite database keeps the `ativos_online` table of devices, an alert log and
the `usuarios` table. A network scanner (`discovery.py`) and a ping monitor
(`monitor.py`) keep the table up to date. Two console scripts
(`crud_ativos.py`, `excluir_ativos.py`) edit it directly. Several browser pages
(`script.js`, `inventario.js`, `charts.js`, `database.js`, `assets.js`) render
it, search it and send edits back. `Backup.py` zips the project tree and
uploads the archive to Google Drive.

This project models that core in Dafny and proves what it promises:

- `Storage` is the database as values. A table is a map from INTEGER PRIMARY
  KEY to record plus the AUTOINCREMENT counter, so ids are never reused. The
  alert log is a sequence in insertion order. `fetchone()` on a query without
  ORDER BY is the lowest matching id, which is SQLite's full-scan order.
  `Database` is a class whose fields the handlers, the scanner and the monitor
  update in place.
- `Api`, `Discovery` and `Monitor` are the backend's handlers, scan merge and
  status pass. Request bodies are records of `Field`s: a member is absent,
  JSON null, or a string. Replies are a status code and a JSON value.
- `CrudAtivos` and `ExcluirAtivos` are the console scripts. The answers
  `input()` would read are parameters.
- `Client` holds what the pages share: the JSON asset records, table rows,
  the outcome of an awaited `fetch`, and the visible effects of a handler
  (requests, toasts, modal changes). `Script`, `Inventario`, `Charts`,
  `DashboardData` and `OnlineAssets` are the pages. Each page's globals and
  table body are the fields of a class, and each awaited `fetch` is a
  parameter.
- `Backup` models the file selection and archive names over a file tree
  value, where '/' stands for `os.sep`. It also models the credential
  precedence and the conditions on upload and cleanup. The environment, the
  clock and the outcome of every external call are parameters.
- `Common` holds the string operations used on both sides: case folding,
  substring search, stripping, decimal parsing, filters and counts.

Behaviour the model makes explicit:

- On the "Ativos Online" page, every status badge has the online style,
  whatever the status (`assets.js`:98). The badge is not two-valued.
- That page's search matches the whole text of a rendered row, not a fixed
  set of fields (`assets.js`:130-139).
- The dashboard's category buckets are 'Smartphones', 'Notebooks',
  'Computadores' and 'Outros'. The text classified is the name, a space and
  the tipo (`charts.js`:103). An asset with no keyword of the first three
  groups in its name or its tipo falls into 'Outros'; "Servidor SQL" of tipo
  'Computador' counts under 'Computadores' (`charts.js`:101-121).
- On a page whose path holds 'dashboard' or 'home', `database.js` requests
  the statistics twice. 'ativosnarede' is checked before 'ativosonline'
  (`database.js`:268-285).
- api.py has no `/api/scan-rede` or `/api/scan-status` route. The POSTs that
  inventario.js:49 and assets.js:59 send fall to the GET-only
  `/<path:filename>` rule and get a reply that is not ok. Against this
  server, `Inventario.InventarioPage.Scan` and
  `OnlineAssets.OnlineAssetsPage.AtualizarOnlineComScan` always end in their
  error toast and never reload the list.
- `script.js`'s version-check rewrite keeps the text before the first " - ".
  It is not idempotent for a value with no " - " that ends in " -", such as
  "v -": the second rewrite cuts the value at index 1.
  `Script.DanglingDashNotIdempotent` exhibits this input, and
  `Script.RewriteVersionIdempotent` proves idempotence for every other value.
- In `discovery.py`, a row whose ip_address is NULL is never marked Offline by
  the `NOT IN` update.
- `ping3` returning a delay of 0.0 counts as online, because the test is on
  identity and not on truthiness.
- In `trocar_senha`, a new password made only of spaces passes validation
  and is stored as "". After that, no login with that email succeeds.

## Model

| member | source | states |
|---|---|---|
| Storage.Table.Insert | projeto_hosts/SQlite/api.py:105-115 | an INSERT gives the row the AUTOINCREMENT counter's value, which held no row; every other row is kept and the counter advances by one |
| Storage.Table.Remove | projeto_hosts/SQlite/api.py:436 | `DELETE ... WHERE id = ?` removes that id and nothing else, leaves the counter alone, and changes nothing when the id is missing |
| Storage.Table.LowestMatch | projeto_hosts/SQlite/api.py:169-170 | `fetchone()` without ORDER BY returns the lowest-id row that satisfies the condition, and returns none exactly when no row does |
| Storage.Table.Listing | projeto_hosts/SQlite/api.py:336-342 | `SELECT *` lists every stored row exactly once, with its own id and contents, in ascending id order |
| Storage.Table.ListingLength | projeto_hosts/SQlite/api.py:472 | `COUNT(*)` equals the length of the listing |
| Storage.EmptyTable | projeto_hosts/SQlite/api.py:90-147 | a freshly created table has no rows and a counter whose ids are valid |
| Storage.Database.constructor | projeto_hosts/SQlite/api.py:90-147 | `criar_tabelas_iniciais` on a new file leaves three empty, valid tables |
| Storage.Database.RegisterAlert | projeto_hosts/SQlite/api.py:74-88 | `registrar_alerta` appends exactly one alert with the given time, type and message, and touches nothing else |
| Api.ServeStatic | projeto_hosts/SQlite/api.py:37-60 | 200 iff root, `templates/` or `login/` holds the file, serving the first of the three that does; otherwise 404 with the plain-text body "Arquivo não encontrado." |
| Api.RootShadowsTemplates | projeto_hosts/SQlite/api.py:44-47 | a file present in the project root is served from there, whatever the other folders hold |
| Api.ServeIndex | projeto_hosts/SQlite/api.py:28-35 | `/` serves `login/login.html` with 200 iff that file exists. Otherwise the reply is Flask's default 404 page: `send_from_directory` raises `NotFound`, which the `except FileNotFoundError` does not catch |
| Api.Credential | projeto_hosts/SQlite/api.py:153-154 | a credential is present iff the member is a truthy string whose stripped text is non-empty, and its value is that stripped text |
| Api.Login | projeto_hosts/SQlite/api.py:150-197 | 400 iff either stripped credential is missing. 200 only when the lowest-id user with that email has that password, compared stripped; that user's id, name and email are returned. Every other case gets the single 401 reply |
| Api.LoginSucceedsFor | projeto_hosts/SQlite/api.py:168-193 | the first user registered under an email logs in with that user's stripped password and gets exactly their id, name and email |
| Api.FirstWithEmail | projeto_hosts/SQlite/api.py:169-170 | the email lookup finds the first user registered under that email |
| Api.UnknownEmailLikeWrongPassword | projeto_hosts/SQlite/api.py:172-186 | for an email no user has, every password gets the same 401 reply a wrong password gets |
| Api.TrocarSenhaSpec | projeto_hosts/SQlite/api.py:209-244 | 400 iff id, current or new password is falsy. Otherwise 404 iff the id is unknown, 401 iff the stored and given passwords differ once stripped, else 200. Only the 200 case changes the table, and only that user's password, set to the stripped new one |
| Api.TrocarSenha | projeto_hosts/SQlite/api.py:209-244 | the handler's reply and resulting users table are exactly those of `TrocarSenhaSpec` |
| Api.LookupSurvivesPasswordChange | projeto_hosts/SQlite/api.py:239 | rewriting a user's password does not change which user an email lookup finds |
| Api.LoginAfterPasswordWrite | projeto_hosts/SQlite/api.py:239 | once a stripped non-empty password is written, the user that email finds logs in with it |
| Api.LoginRefusedAfterPasswordWrite | projeto_hosts/SQlite/api.py:239 | once a password is written, any other password for that user's email is refused with the 401 reply |
| Api.ChangedPasswordLogsIn | projeto_hosts/SQlite/api.py:234-241 | after a successful password change, login with the new password succeeds |
| Api.OldPasswordRefused | projeto_hosts/SQlite/api.py:234-241 | after a successful change to a different password, the old one is refused like any wrong password |
| Api.BlankNewPasswordLocksOut | projeto_hosts/SQlite/api.py:239 | a new password made only of spaces is stored as "", and that user can never log in again |
| Api.NewAsset | projeto_hosts/SQlite/api.py:347-368 | the inserted row is stamped with the request time; it keeps nome, ip and mac as sent (null stays NULL). An absent tipo, status or condicao becomes 'Outros', 'Pendente' or 'Desconhecida'; a present one, even null, is stored as sent |
| Api.AddAtivoSpec | projeto_hosts/SQlite/api.py:344-375 | 400 iff nome is falsy, with no change and no alert. Otherwise 201 with the new id, one inserted row and exactly one 'Adição' alert |
| Api.AddAtivo | projeto_hosts/SQlite/api.py:344-375 | the handler's reply, table and appended alerts are exactly those of `AddAtivoSpec` |
| Api.UpdatedAsset | projeto_hosts/SQlite/api.py:390-399 | nome, ip, mac, status and condicao are always overwritten, ip and mac possibly with NULL; tipo only when truthy; data_inicio and tempo are kept |
| Api.UpdateIdempotent | projeto_hosts/SQlite/api.py:390-399 | applying the same update twice gives the same row as applying it once |
| Api.UpdateAtivoSpec | projeto_hosts/SQlite/api.py:379-415 | 400 iff nome, status or condicao is falsy; then 404 iff the id is unknown; otherwise 200 with only that row rewritten. No alert is logged, and no change is made on an error |
| Api.BuildAssignments | projeto_hosts/SQlite/api.py:393-402 | the SET list built step by step (five columns, then tipo when truthy) rewrites any row exactly as `UpdatedAsset` says |
| Api.UpdateAtivo | projeto_hosts/SQlite/api.py:379-415 | the handler's reply and table are exactly those of `UpdateAtivoSpec` |
| Api.DeleteAtivoSpec | projeto_hosts/SQlite/api.py:419-442 | 404 iff the id is unknown, with no change and no alert; otherwise 200, exactly that row removed and one 'Remoção' alert naming it |
| Api.DeleteAtivo | projeto_hosts/SQlite/api.py:419-442 | the handler's reply, table and appended alerts are exactly those of `DeleteAtivoSpec` |
| Api.AddThenDeleteRestoresRows | projeto_hosts/SQlite/api.py:344-442 | deleting the row just added restores the rows. The counter stays advanced, and both the 'Adição' and the 'Remoção' alerts remain |
| Api.DeletedIdNotReused | projeto_hosts/SQlite/api.py:107 | after a delete, the next insert never receives the deleted id (AUTOINCREMENT) |
| Api.AlertasDesc | projeto_hosts/SQlite/api.py:448-454 | the listing has one entry per alert; the k-th entry is the alert with id n-k, where an alert's id is its position in the log plus one |
| Api.AlertasNewestFirst | projeto_hosts/SQlite/api.py:452 | ids strictly decrease along the listing |
| Api.NewAlertFirst | projeto_hosts/SQlite/api.py:452 | the alert logged last heads the listing, with the next id |
| Api.AtivosOnline | projeto_hosts/SQlite/api.py:457-463 | exactly the rows whose status is 'Online' are returned, as an order-preserving sub-list of the full listing |
| Api.Estatisticas | projeto_hosts/SQlite/api.py:466-485 | the totals are the asset and user row counts. The online counter is the length of the Online listing, and the offline counter is the number of rows whose status is exactly 'Offline'. online + offline <= total |
| Api.DefaultStatusCountsInNeither | projeto_hosts/SQlite/api.py:359 | an asset added without a status ('Pendente') counts as neither Online nor Offline |
| Api.TipoLabel | projeto_hosts/SQlite/api.py:493 | `COALESCE(tipo, 'Não Classificado')` labels a row with a non-null tipo by that tipo |
| Api.Labels | projeto_hosts/SQlite/api.py:493 | `GROUP BY`: a label is listed iff some row carries it, each label once |
| Api.GroupCounts | projeto_hosts/SQlite/api.py:493 | each listed label is paired with the number of rows carrying it |
| Api.InsertByCount | projeto_hosts/SQlite/api.py:493 | inserting a group into a list sorted by descending count keeps it sorted and holds exactly the old groups plus the new one |
| Api.SortByCount | projeto_hosts/SQlite/api.py:493 | `ORDER BY contagem DESC`: the result is sorted by descending count, holds exactly the same groups, and keeps distinct labels distinct |
| Api.GroupsOf | projeto_hosts/SQlite/api.py:493 | one group per distinct label, each with its row count; every row's label has a group and every group has a row |
| Api.TiposAtivos | projeto_hosts/SQlite/api.py:487-505 | the groups are sorted by descending count, have distinct labels and are exactly the `GROUP BY` groups, each counting the rows that carry its label |
| Api.TiposAtivosCoverRows | projeto_hosts/SQlite/api.py:493-500 | every row's label appears in the breakdown |
| Api.TiposAtivosOnlyRows | projeto_hosts/SQlite/api.py:493-500 | every reported group has a positive count and at least one row carrying its label |
| Api.UpdateValid | projeto_hosts/SQlite/api.py:383-391 | an update passes validation iff nome, status and condicao would each be stored as a non-NULL, non-empty string |
| Api.AdditionAlert | projeto_hosts/SQlite/api.py:373 | an 'Adição' alert stamped with the request time; its message is exactly "Novo ativo entrou na rede: <nome> (", then "<tipo>) (IP: <ip>" with NULL printed as "None", then ", ID: <id>)" (`Framed`) |
| Api.RemovalAlert | projeto_hosts/SQlite/api.py:440 | a 'Remoção' alert stamped with the request time; its message is exactly "Ativo saiu da rede: <nome> (", then "<tipo>) (IP: <ip>" with NULL printed as "None", then ", ID: <id>)" (`Framed`) |
| Discovery.GetAssetType | projeto_hosts/SQlite/discovery.py:72-87 | the type is always one of Computador, Roteador/Firewall, Impressora, Servidor, Switch, Outros |
| Discovery.GetAssetTypeIsFirstMatch | projeto_hosts/SQlite/discovery.py:72-87 | the `if` chain on the lower-cased guess is exactly the first-match classifier over the five keyword groups, in source order, with 'Outros' as fallback |
| Discovery.ComputerWinsTies | projeto_hosts/SQlite/discovery.py:76-77 | a guess holding windows, linux or unix is a Computador, whatever other keywords it holds |
| Discovery.HpBeforeServer | projeto_hosts/SQlite/discovery.py:80-83 | a guess holding 'hp' and no computer or router keyword is an Impressora, even when it also says 'server' |
| Discovery.TakeUntilSpace | projeto_hosts/SQlite/discovery.py:35 | the longest whitespace-free prefix of the line |
| Discovery.FirstToken | projeto_hosts/SQlite/discovery.py:35 | `line.split()[0]` exists iff the line is not all whitespace, and is then a non-empty run without whitespace |
| Discovery.NameLineHasToken | projeto_hosts/SQlite/discovery.py:34-36 | a line holding '<20>' always has a non-empty first token, so the `if nome_netbios` test cannot fail there |
| Discovery.NetbiosName | projeto_hosts/SQlite/discovery.py:33-37 | a returned name is non-empty and is the first token of a line holding both '<20>' and 'UNIQUE' |
| Discovery.NetbiosNameNone | projeto_hosts/SQlite/discovery.py:33-40 | the lookup finds nothing iff no line holds both markers |
| Discovery.NetbiosNameIsFirstNameLine | projeto_hosts/SQlite/discovery.py:33-37 | the name is the first token of the first line holding both markers |
| Discovery.NetbiosOf | projeto_hosts/SQlite/discovery.py:26-40 | a failed `nbtstat` run (exception) gives no name; any name is non-empty |
| Discovery.NetbiosLookup | projeto_hosts/SQlite/discovery.py:26-40 | the loop with its early return yields exactly `NetbiosOf` of the run |
| Discovery.FirstHostname | projeto_hosts/SQlite/discovery.py:50-54 | the first reported hostname that is non-empty and not 'localhost'; none iff there is no such hostname |
| Discovery.AfterLastDot | projeto_hosts/SQlite/discovery.py:57 | `ip.split('.')[-1]`: the dot-free suffix after the last '.', or the whole text when it has none |
| Discovery.GetBestName | projeto_hosts/SQlite/discovery.py:42-57 | the NetBIOS name when there is one; else the first nmap hostname that is non-empty and not 'localhost' (`FirstHostname`); else "Dispositivo-" and the last IP component. Never empty |
| Discovery.GetOsGuess | projeto_hosts/SQlite/discovery.py:59-67 | the name of the first osmatch entry; 'OS Bloqueado' when there is no detail data, no osmatch, or a first entry without a name (its KeyError is caught) |
| Discovery.ResolveMac | projeto_hosts/SQlite/discovery.py:148-157 | nmap's MAC unless it is missing or 'N/A'; then the local lookup's MAC upper-cased when truthy, else 'N/A' |
| Discovery.MatchOf | projeto_hosts/SQlite/discovery.py:172-176 | the row found is the lowest-id row with the host's IP, or its resolved MAC when that MAC is not 'N/A'; none is found iff no row has either |
| Discovery.Upsert | projeto_hosts/SQlite/discovery.py:144-197 | one iteration never removes a row and never moves the counter back |
| Discovery.UpsertSpec | projeto_hosts/SQlite/discovery.py:178-197 | an unmatched host adds one Online, 'Monitorado' row with its IP and the name "<base> (<os>)". A matched row becomes Online under the new name and keeps its IP, MAC and condition. No other row changes |
| Discovery.UpsertAll | projeto_hosts/SQlite/discovery.py:144-197 | the host loop keeps every existing row |
| Discovery.UpsertAllAppend | projeto_hosts/SQlite/discovery.py:144 | running the loop over two lists of hosts in a row equals running it over their concatenation |
| Discovery.Ips | projeto_hosts/SQlite/discovery.py:145 | `hosts_escaneados_neste_ciclo` lists the scanned IPs in scan order |
| Discovery.MarkOffline | projeto_hosts/SQlite/discovery.py:200-211 | every Online row with a non-NULL IP outside the live list becomes Offline and nothing else changes. Afterwards no such row is left; NULL-IP rows are untouched |
| Discovery.MarkOfflineIdempotent | projeto_hosts/SQlite/discovery.py:205-211 | running the offline UPDATE twice equals running it once |
| Discovery.Discover | projeto_hosts/SQlite/discovery.py:91-217 | a failed ping scan or one with no live host changes nothing. Otherwise no row is left Online with an IP outside the live list, and no row is removed |
| Discovery.StaysOnline | projeto_hosts/SQlite/discovery.py:144-197 | a row already Online stays Online, with the same IP, through any hosts processed later |
| Discovery.MatchedRowOnline | projeto_hosts/SQlite/discovery.py:190-197 | the row the k-th host matched is Online after that host, and its IP is unchanged |
| Discovery.OnlineUntilEnd | projeto_hosts/SQlite/discovery.py:144-197 | what a row is after the first k + 1 hosts (Online, its IP) it still is after the whole loop |
| Discovery.StaysOnlineAfter | projeto_hosts/SQlite/discovery.py:144-197 | an Online row keeps its status and IP through any further hosts |
| Discovery.MacMatchedRowEndsOffline | projeto_hosts/SQlite/discovery.py:172-211 | a row a host matched by MAC alone, whose stored IP the scan did not see, ends the cycle Offline even though the host answered |
| Discovery.UpsertHost | projeto_hosts/SQlite/discovery.py:144-197 | the loop body's effect on the table is exactly `Upsert` |
| Discovery.DiscoverAndAddAssets | projeto_hosts/SQlite/discovery.py:91-217 | the procedure's effect on the table is exactly `Discover` |
| Discovery.IsNameLineIff | projeto_hosts/SQlite/discovery.py:34 | a line is inspected iff '<20>' and 'UNIQUE' both occur in it |
| Discovery.UsableHostname | projeto_hosts/SQlite/discovery.py:52-53 | a missing, empty or 'localhost' hostname is skipped; any other one is used |
| Discovery.HostName | projeto_hosts/SQlite/discovery.py:160-169 | the stored name is exactly the best name, " (", the OS guess and ")" (`Framed`) |
| Monitor.PingHostIffDelay | projeto_hosts/SQlite/monitor.py:33-44 | a host counts as online iff `ping` returned a delay; a timeout, False or an exception counts as offline, and a 0.0 delay is online |
| Monitor.NewStatus | projeto_hosts/SQlite/monitor.py:75 | the new status is 'Online' iff the ping succeeded, and is otherwise 'Offline' |
| Monitor.Checked | projeto_hosts/SQlite/monitor.py:67-83 | only `status` may change. A row with an IP gets the new status; it is rewritten only when that differs from the stored one (NULL differs from both). A row without an IP is left alone |
| Monitor.ChangeAlert | projeto_hosts/SQlite/monitor.py:86-90 | stamped with the pass time; the type is "Status: " and the new status; the message is exactly "O ativo '<nome>' (IP: <ip>) ficou OFFLINE." or "... voltou a ficar ONLINE." (`Framed`) |
| Monitor.MonitorTable | projeto_hosts/SQlite/monitor.py:46-93 | after a pass the table has the same ids and counter. Rows without an IP are untouched, only statuses change, and a row changes iff its status changed |
| Monitor.MonitorAlerts | projeto_hosts/SQlite/monitor.py:61-90 | a pass logs at most one alert per fetched row |
| Monitor.OneAlertPerChange | projeto_hosts/SQlite/monitor.py:78-90 | the number of alerts equals the number of rows whose status changed |
| Monitor.NoChangeNoAlert | projeto_hosts/SQlite/monitor.py:91-93 | a pass in which no status changes logs nothing |
| Monitor.SecondPassQuiet | projeto_hosts/SQlite/monitor.py:107-110 | with the same ping results, a second pass neither changes the table nor logs an alert |
| Monitor.EmptyTableQuiet | projeto_hosts/SQlite/monitor.py:57-59 | an empty table is neither written nor alerted on |
| Monitor.MonitorAlertsStep | projeto_hosts/SQlite/monitor.py:61-90 | each fetched row adds its own alert, in fetch order, exactly when its status changed |
| Monitor.MonitorTableByRows | projeto_hosts/SQlite/monitor.py:61-83 | a table whose every row went through the per-row check is the table after the pass |
| Monitor.CheckRow | projeto_hosts/SQlite/monitor.py:62-90 | the loop body rewrites only that row, and only on a change, then appends exactly that change's alert |
| Monitor.FetchedIdsStep | projeto_hosts/SQlite/monitor.py:61 | each iteration adds its row's id to the rows handled so far |
| Monitor.ListingCoversRows | projeto_hosts/SQlite/monitor.py:54-55 | `fetchall()` fetches every row of the table |
| Monitor.RowsCheckedStep | projeto_hosts/SQlite/monitor.py:78-83 | checking one more row extends the set of checked rows by that row and leaves the others as they were |
| Monitor.CheckFetched | projeto_hosts/SQlite/monitor.py:61-93 | the loop checks every fetched row, keeps the counter, and appends exactly the pass's alerts in fetch order |
| Monitor.VerificarAtivos | projeto_hosts/SQlite/monitor.py:46-99 | one pass leaves exactly the table of `MonitorTable` and appends exactly the alerts of `MonitorAlerts` over the fetched listing |
| Monitor.PingHost | projeto_hosts/SQlite/monitor.py:33-44 | a host counts as online iff `ping` returned a delay; None, False and a raised exception all count as offline |
| Monitor.Changed | projeto_hosts/SQlite/monitor.py:67-78 | a row is rewritten only when it has an IP. Then a row stored 'Online' changes iff the ping failed, one stored 'Offline' iff it succeeded, and one with any other status (NULL, 'Pendente') always changes |
| Backup.ArcName | hosts_backup_20251202_161218/Projeto-integrador-2semestre-main/hosts.py/Backup.py:123-131 | for a path below the root, the archive name is what follows the root and one separator |
| Backup.ArcNameIsRelativePath | hosts_backup_20251202_161218/Projeto-integrador-2semestre-main/hosts.py/Backup.py:123-131 | a file at root/rel is archived under rel |
| Backup.FilesHere | hosts_backup_20251202_161218/Projeto-integrador-2semestre-main/hosts.py/Backup.py:125-137 | every file written from a directory passes both tests: its base name is not excluded and its archive name has no "backup.py". It is written under its joined path and its relative archive name |
| Backup.WalkKeepsOnlyKept | hosts_backup_20251202_161218/Projeto-integrador-2semestre-main/hosts.py/Backup.py:118-137 | at every depth, no archived file is excluded by name or has "backup.py" in its archive name |
| Backup.SubdirsKeepOnlyKept | hosts_backup_20251202_161218/Projeto-integrador-2semestre-main/hosts.py/Backup.py:118-137 | the same holds for everything archived from the kept subdirectories |
| Backup.KeptFileArchived | hosts_backup_20251202_161218/Projeto-integrador-2semestre-main/hosts.py/Backup.py:125-137 | conversely, every file of the directory that passes both tests is written |
| Backup.KeptDirWalked | hosts_backup_20251202_161218/Projeto-integrador-2semestre-main/hosts.py/Backup.py:118-120 | every subdirectory whose name is not excluded is walked, and its files end up in the archive |
| Backup.WalkArcNamesRelative | hosts_backup_20251202_161218/Projeto-integrador-2semestre-main/hosts.py/Backup.py:123-131 | every archive name is the full path with the root and one separator removed |
| Backup.SubdirsArcNamesRelative | hosts_backup_20251202_161218/Projeto-integrador-2semestre-main/hosts.py/Backup.py:123-131 | the same holds inside the kept subdirectories |
| Backup.ExcludedDirContentsIgnored | hosts_backup_20251202_161218/Projeto-integrador-2semestre-main/hosts.py/Backup.py:118-120 | pruning with `dirs[:]`: an excluded directory's contents, whatever they are, do not change the archive |
| Backup.FilesHereIgnoresDirs | hosts_backup_20251202_161218/Projeto-integrador-2semestre-main/hosts.py/Backup.py:125-137 | the files written from a directory do not depend on its subdirectories' contents |
| Backup.SubdirsIgnoreExcluded | hosts_backup_20251202_161218/Projeto-integrador-2semestre-main/hosts.py/Backup.py:118-120 | an excluded subdirectory contributes nothing to the walk |
| Backup.ExcludedFilesNeverArchived | hosts_backup_20251202_161218/Projeto-integrador-2semestre-main/hosts.py/Backup.py:107-114 | the zip being written, token.json, credentials.json and meu_banco.db are never archived, at any depth |
| Backup.NestedFileArchived | hosts_backup_20251202_161218/Projeto-integrador-2semestre-main/hosts.py/Backup.py:118-137 | a kept file in a kept directory just below the root is archived as dir/file |
| Backup.ScriptKept | hosts_backup_20251202_161218/Projeto-integrador-2semestre-main/hosts.py/Backup.py:127-134 | "hosts.py" is not excluded and "hosts.py/Backup.py" passes both file tests, because the test is case-sensitive |
| Backup.ScriptItselfArchived | hosts_backup_20251202_161218/Projeto-integrador-2semestre-main/hosts.py/Backup.py:133-137 | the script itself, hosts.py/Backup.py, is archived despite the comment's intent, because the test is case-sensitive |
| Backup.AltCredentialsArchived | hosts_backup_20251202_161218/Projeto-integrador-2semestre-main/hosts.py/Backup.py:107-114 | credentials.json.json, which the module itself may select, is not excluded and is archived |
| Backup.ArchiveFiles | hosts_backup_20251202_161218/Projeto-integrador-2semestre-main/hosts.py/Backup.py:125-137 | the inner loop writes exactly the entries `FilesHere` describes, in listing order |
| Backup.ArchiveTree | hosts_backup_20251202_161218/Projeto-integrador-2semestre-main/hosts.py/Backup.py:117-137 | the whole walk writes exactly the archive `Walk` describes: a directory's files, then each kept subdirectory in listing order |
| Backup.FilesHereAppend | hosts_backup_20251202_161218/Projeto-integrador-2semestre-main/hosts.py/Backup.py:125-137 | the files written from a concatenated listing are those of each part, in order |
| Backup.SubdirsAppend | hosts_backup_20251202_161218/Projeto-integrador-2semestre-main/hosts.py/Backup.py:118-120 | the walk of a concatenated listing's subdirectories is that of each part, in order |
| Backup.DefaultCredentials | hosts_backup_20251202_161218/Projeto-integrador-2semestre-main/hosts.py/Backup.py:22-28 | `credentials.json.json` is chosen iff `credentials.json` is missing and the alternative exists; otherwise `credentials.json` |
| Backup.Credentials | hosts_backup_20251202_161218/Projeto-integrador-2semestre-main/hosts.py/Backup.py:186-195 | --service-account wins, then SERVICE_ACCOUNT_FILE, then --credentials, else the module default |
| Backup.Basename | hosts_backup_20251202_161218/Projeto-integrador-2semestre-main/hosts.py/Backup.py:148 | `os.path.basename`: the suffix of the path after its last '/', or the whole path when it has none |
| Backup.BasenameOfJoin | hosts_backup_20251202_161218/Projeto-integrador-2semestre-main/hosts.py/Backup.py:36 | the base name of the backup path is the backup file name |
| Backup.UploadMetadata | hosts_backup_20251202_161218/Projeto-integrador-2semestre-main/hosts.py/Backup.py:145-153 | the upload is named after the file's base name as an application/zip; it has a `parents` entry iff the folder id is non-empty, and that entry is exactly [folder id] |
| Backup.DefaultUploadGoesToFolder | hosts_backup_20251202_161218/Projeto-integrador-2semestre-main/hosts.py/Backup.py:35-40 | by default the archive is uploaded under its timestamped name into the configured Drive folder |
| Backup.Authenticate | hosts_backup_20251202_161218/Projeto-integrador-2semestre-main/hosts.py/Backup.py:44-91 | the service account is used iff it loads. The run exits iff that fails, no stored token is valid or refreshable, and the OAuth flow fails. Otherwise the token file is rewritten iff the stored token was not valid |
| Backup.RunSteps | hosts_backup_20251202_161218/Projeto-integrador-2semestre-main/hosts.py/Backup.py:181-219 | zipping comes first, and a failed zip stops the run. A failed sign-in exits after it; otherwise the upload follows. The local zip is removed iff zip, sign-in and upload succeeded and --no-cleanup was not given |
| Backup.BackupRun.constructor | hosts_backup_20251202_161218/Projeto-integrador-2semestre-main/hosts.py/Backup.py:22-40 | on import the credentials file and Drive folder take their module defaults |
| Backup.BackupRun.Configure | hosts_backup_20251202_161218/Projeto-integrador-2semestre-main/hosts.py/Backup.py:186-198 | the options reassign the two globals by the precedence `Credentials` states; --drive-folder replaces the folder id only when given |
| Backup.BackupRun.Run | hosts_backup_20251202_161218/Projeto-integrador-2semestre-main/hosts.py/Backup.py:181-219 | the run configures the globals, then performs exactly the steps of `RunSteps`, with the upload metadata built from the configured folder |
| Backup.KeptIff | hosts_backup_20251202_161218/Projeto-integrador-2semestre-main/hosts.py/Backup.py:125-135 | a file is written iff its base name equals no entry of the exclude list and "backup.py" occurs at no position of its archive name |
| Backup.Walk | hosts_backup_20251202_161218/Projeto-integrador-2semestre-main/hosts.py/Backup.py:117-137 | every archive name in a directory's walk is computed from its full path as `full_path[len(root_dir) + 1:]` |
| Backup.Subdirs | hosts_backup_20251202_161218/Projeto-integrador-2semestre-main/hosts.py/Backup.py:118-120 | the same holds for everything the kept subdirectories contribute |
| CrudAtivos.TempoOrZero | hosts_backup_20251202_161218/Projeto-integrador-2semestre-main/projeto_hosts/SQlite/crud_ativos.py:42-46 | the usage time is the typed integer when `int()` accepts the answer, and 0 after a ValueError |
| CrudAtivos.TypedTempoStored | hosts_backup_20251202_161218/Projeto-integrador-2semestre-main/projeto_hosts/SQlite/crud_ativos.py:42-54 | a usage time typed as an integer is stored as that integer |
| CrudAtivos.InvalidTempoStoredAsZero | hosts_backup_20251202_161218/Projeto-integrador-2semestre-main/projeto_hosts/SQlite/crud_ativos.py:42-54 | an answer `int()` rejects is stored as 0 |
| CrudAtivos.AddResult | hosts_backup_20251202_161218/Projeto-integrador-2semestre-main/projeto_hosts/SQlite/crud_ativos.py:34-61 | the INSERT adds exactly one row under the next id, holding the answers; every other row is kept |
| CrudAtivos.KeepIfBlank | hosts_backup_20251202_161218/Projeto-integrador-2semestre-main/projeto_hosts/SQlite/crud_ativos.py:118-122 | `input() or ativo[k]`: an empty answer keeps the stored value, any other answer replaces it |
| CrudAtivos.Revised | hosts_backup_20251202_161218/Projeto-integrador-2semestre-main/projeto_hosts/SQlite/crud_ativos.py:117-137 | each blank answer keeps its column. A usage time that is blank or not an integer keeps the old one, an integer answer replaces it, and the other columns are untouched |
| CrudAtivos.BlankAnswersKeepRow | hosts_backup_20251202_161218/Projeto-integrador-2semestre-main/projeto_hosts/SQlite/crud_ativos.py:117-137 | leaving every prompt blank writes the row back unchanged |
| CrudAtivos.RevisionIdempotent | hosts_backup_20251202_161218/Projeto-integrador-2semestre-main/projeto_hosts/SQlite/crud_ativos.py:117-137 | giving the same answers a second time changes nothing |
| CrudAtivos.UpdateOutcome | hosts_backup_20251202_161218/Projeto-integrador-2semestre-main/projeto_hosts/SQlite/crud_ativos.py:92-113 | an id `int()` rejects ends the update. A parsed id that is not in the table reports it missing; otherwise the row is updated under that id. There is no confirmation step |
| CrudAtivos.UpdateResult | hosts_backup_20251202_161218/Projeto-integrador-2semestre-main/projeto_hosts/SQlite/crud_ativos.py:92-145 | only the chosen row changes, exactly as `Revised` says, and only when it exists; ids and counter are kept |
| CrudAtivos.DeleteOutcome | hosts_backup_20251202_161218/Projeto-integrador-2semestre-main/projeto_hosts/SQlite/crud_ativos.py:148-178 | a row is deleted iff the id parses, the row exists and the lower-cased answer is exactly 's' |
| CrudAtivos.OnlySConfirms | hosts_backup_20251202_161218/Projeto-integrador-2semestre-main/projeto_hosts/SQlite/crud_ativos.py:171-173 | 'S' confirms a deletion; 'sim' cancels it |
| CrudAtivos.DeleteResult | hosts_backup_20251202_161218/Projeto-integrador-2semestre-main/projeto_hosts/SQlite/crud_ativos.py:148-178 | a confirmed deletion removes exactly that row; every other outcome leaves the table as it was |
| CrudAtivos.Choose | hosts_backup_20251202_161218/Projeto-integrador-2semestre-main/projeto_hosts/SQlite/crud_ativos.py:199-211 | '1' adds, '2' lists, '3' updates, '4' deletes and '5' exits, each iff that is the choice; anything else is an invalid choice |
| CrudAtivos.Step | hosts_backup_20251202_161218/Projeto-integrador-2semestre-main/projeto_hosts/SQlite/crud_ativos.py:199-211 | listing, exiting and an invalid choice leave the table unchanged |
| CrudAtivos.ReplayStep | hosts_backup_20251202_161218/Projeto-integrador-2semestre-main/projeto_hosts/SQlite/crud_ativos.py:191-211 | replaying one more turn is one more step of the menu |
| CrudAtivos.CounterCountsAdds | hosts_backup_20251202_161218/Projeto-integrador-2semestre-main/projeto_hosts/SQlite/crud_ativos.py:16-17 | the AUTOINCREMENT counter advances exactly once per add, whatever else the turns do |
| CrudAtivos.CrudSession.constructor | hosts_backup_20251202_161218/Projeto-integrador-2semestre-main/projeto_hosts/SQlite/crud_ativos.py:187-189 | the session starts on the given table |
| CrudAtivos.CrudSession.AdicionarAtivo | hosts_backup_20251202_161218/Projeto-integrador-2semestre-main/projeto_hosts/SQlite/crud_ativos.py:34-61 | the table becomes exactly `AddResult` of the answers |
| CrudAtivos.CrudSession.AtualizarAtivo | hosts_backup_20251202_161218/Projeto-integrador-2semestre-main/projeto_hosts/SQlite/crud_ativos.py:92-145 | the outcome and the new table are exactly `UpdateOutcome` and `UpdateResult` |
| CrudAtivos.CrudSession.DeletarAtivo | hosts_backup_20251202_161218/Projeto-integrador-2semestre-main/projeto_hosts/SQlite/crud_ativos.py:148-184 | the outcome and the new table are exactly `DeleteOutcome` and `DeleteResult` |
| CrudAtivos.CrudSession.Perform | hosts_backup_20251202_161218/Projeto-integrador-2semestre-main/projeto_hosts/SQlite/crud_ativos.py:201-208 | dispatching a choice changes the table exactly as `Step` |
| CrudAtivos.CrudSession.Menu | hosts_backup_20251202_161218/Projeto-integrador-2semestre-main/projeto_hosts/SQlite/crud_ativos.py:187-211 | turns are handled up to and including the first '5', and the table is the replay of the turns before it; with no '5', every turn is handled |
| CrudAtivos.NewAsset | hosts_backup_20251202_161218/Projeto-integrador-2semestre-main/projeto_hosts/SQlite/crud_ativos.py:37-54 | the inserted row holds the five text answers verbatim and never NULL, no data_inicio or tipo, and a usage time that is the typed integer whenever `int()` accepts it |
| CrudAtivos.CrudSession.PerformNext | hosts_backup_20251202_161218/Projeto-integrador-2semestre-main/projeto_hosts/SQlite/crud_ativos.py:199-208 | handling the next turn leaves the table as replaying one more turn |
| ExcluirAtivos.MostrarTodos | hosts_backup_20251202_161218/Projeto-integrador-2semestre-main/projeto_hosts/SQlite/excluir_ativos.py:7-35 | the helper returns True iff the table has a row |
| ExcluirAtivos.RunOutcome | hosts_backup_20251202_161218/Projeto-integrador-2semestre-main/projeto_hosts/SQlite/excluir_ativos.py:53-85 | an empty table asks nothing, and an id `int()` rejects ends the run. A row is deleted iff the id parses, the lower-cased answer is 's' or 'sim', and the row exists. A confirmed missing id reports not found, an unconfirmed answer cancels, and every id reported is the parsed one |
| ExcluirAtivos.SimConfirms | hosts_backup_20251202_161218/Projeto-integrador-2semestre-main/projeto_hosts/SQlite/excluir_ativos.py:64-66 | 'SIM' and 's' both confirm the deletion of an existing row |
| ExcluirAtivos.ExclusionScript.constructor | hosts_backup_20251202_161218/Projeto-integrador-2semestre-main/projeto_hosts/SQlite/excluir_ativos.py:37-49 | the script starts on the committed table |
| ExcluirAtivos.ExclusionScript.Run | hosts_backup_20251202_161218/Projeto-integrador-2semestre-main/projeto_hosts/SQlite/excluir_ativos.py:37-101 | the outcome is exactly `RunOutcome`. The DELETE is committed only when it removed a row, which then is exactly one row fewer; every other outcome leaves the committed table as it was |
| ExcluirAtivos.Confirmed | hosts_backup_20251202_161218/Projeto-integrador-2semestre-main/projeto_hosts/SQlite/excluir_ativos.py:64-66 | the deletion is confirmed iff the answer is 's' or 'sim' in any mix of upper and lower case |
| ExcluirAtivos.LowerConfirmation | hosts_backup_20251202_161218/Projeto-integrador-2semestre-main/projeto_hosts/SQlite/excluir_ativos.py:64-66 | lower-casing gives 's' only from 's' or 'S', and 'sim' only from one of its eight case spellings |
| Script.ConditionClass | hosts_backup_20251202_161218/Projeto-integrador-2semestre-main/projeto_hosts/js/script.js:342-344 | 'danger' iff the condition is 'Alocado' or 'Crítico', 'warning' iff 'Manutenção', and 'success' for anything else, a missing condition included |
| Script.StatusClass | hosts_backup_20251202_161218/Projeto-integrador-2semestre-main/projeto_hosts/js/script.js:347 | 'success' iff the status is exactly 'Online', else 'danger' |
| Script.RenderRow | hosts_backup_20251202_161218/Projeto-integrador-2semestre-main/projeto_hosts/js/script.js:338-361 | a row bound to the asset's id with six cells: the five text columns, each '-' when missing or empty, then the action icons. The status and condition cells carry their classes |
| Script.Search | hosts_backup_20251202_161218/Projeto-integrador-2semestre-main/projeto_hosts/js/script.js:529-538 | an asset is kept iff some present column among nome, mac, ip, status and condicao contains the lower-cased, trimmed term. The result is an order-preserving sub-list of the loaded assets |
| Script.BlankAssetNeverFound | hosts_backup_20251202_161218/Projeto-integrador-2semestre-main/projeto_hosts/js/script.js:531-537 | an asset whose five columns are all empty is never shown, even for an empty term |
| Script.BlankTermKeepsNonBlank | hosts_backup_20251202_161218/Projeto-integrador-2semestre-main/projeto_hosts/js/script.js:530-537 | a term that is blank after trimming keeps exactly the assets with some non-empty column, in order |
| Script.AssetMembers | hosts_backup_20251202_161218/Projeto-integrador-2semestre-main/projeto_hosts/js/script.js:437-444 | the payload holds the six inputs in order; each missing or empty input takes its default: 'Nome Indefinido', '', '', 'Outros', 'Online', 'Disponível' |
| Script.SaveRequest | hosts_backup_20251202_161218/Projeto-integrador-2semestre-main/projeto_hosts/js/script.js:446-462 | a PUT to /api/ativos/<id> iff the hidden id is non-empty, else a POST to /api/ativos, carrying the form's payload |
| Script.SubmitEffects | hosts_backup_20251202_161218/Projeto-integrador-2semestre-main/projeto_hosts/js/script.js:434-484 | exactly one request is sent, the save. On success come a toast, the modal closed and a reload, plus the charts reloaded on the dashboard. On failure there is only an error toast with the reply's message |
| Script.OnlyFirstRequest | hosts_backup_20251202_161218/Projeto-integrador-2semestre-main/projeto_hosts/js/script.js:459-476 | the submit handler sends no request besides the save |
| Script.Prefill | hosts_backup_20251202_161218/Projeto-integrador-2semestre-main/projeto_hosts/js/script.js:364-384 | the edit button fills each input from the asset, with '' or the input's default for a missing value; the type select only when the markup has one |
| Script.EditThenSaveTargetsAsset | hosts_backup_20251202_161218/Projeto-integrador-2semestre-main/projeto_hosts/js/script.js:373-455 | editing a listed asset and saving sends a PUT whose last URL segment is the asset's id in decimal, which the server reads back as that id |
| Script.MemberReadBack | hosts_backup_20251202_161218/Projeto-integrador-2semestre-main/projeto_hosts/js/script.js:437-462 | each payload key occurs once, so the server reads back the value sent under it |
| Script.UntouchedEditKeepsRow | hosts_backup_20251202_161218/Projeto-integrador-2semestre-main/projeto_hosts/js/script.js:364-462 | saving a prefilled form untouched passes `update_ativo`'s validation and writes the row back unchanged |
| Script.ConfirmDeleteEffects | hosts_backup_20251202_161218/Projeto-integrador-2semestre-main/projeto_hosts/js/script.js:487-507 | one request, the DELETE of the selected id. A reload follows iff it succeeded, a failure is reported by an error toast, and the modal is closed either way |
| Script.PasswordCheck | hosts_backup_20251202_161218/Projeto-integrador-2semestre-main/projeto_hosts/js/script.js:595-616 | the checks run in order: current password non-empty, new one at least 4 UTF-16 code units long (`JsLength`), confirmation equal, a logged-in user with an id. The first failure is reported and all pass iff none fails |
| Script.PasswordEffects | hosts_backup_20251202_161218/Projeto-integrador-2semestre-main/projeto_hosts/js/script.js:585-650 | a failed check shows only its error toast and sends nothing. Otherwise exactly one POST to /api/trocar-senha with the user's id and both passwords is sent, and the form is reset iff the reply is ok |
| Script.RequestsAppend | hosts_backup_20251202_161218/Projeto-integrador-2semestre-main/projeto_hosts/js/script.js:585-650 | the requests of two effect lists in a row are those of each, in order |
| Script.CheckedFormPassesServerValidation | hosts_backup_20251202_161218/Projeto-integrador-2semestre-main/projeto_hosts/js/script.js:595-633 | a form that passes the page's checks is never refused with the server's 400 |
| Script.VersionPrefix | hosts_backup_20251202_161218/Projeto-integrador-2semestre-main/projeto_hosts/js/script.js:723 | `split(' - ')[0]`: the longest prefix before the first ' - ', the whole value when it has none |
| Script.Pad2 | hosts_backup_20251202_161218/Projeto-integrador-2semestre-main/projeto_hosts/js/script.js:717-718 | `padStart(2, '0')`: two digits denoting the number |
| Script.RewriteVersion | hosts_backup_20251202_161218/Projeto-integrador-2semestre-main/projeto_hosts/js/script.js:716-724 | the field becomes the prefix, ' - Última verificação: ' and the DD/MM/YYYY date |
| Script.PrefixFoundAgain | hosts_backup_20251202_161218/Projeto-integrador-2semestre-main/projeto_hosts/js/script.js:723 | a separator-free prefix without a dangling ' -' is recovered from the rewritten value |
| Script.RewriteVersionIdempotent | hosts_backup_20251202_161218/Projeto-integrador-2semestre-main/projeto_hosts/js/script.js:716-724 | checking twice on the same date leaves what checking once leaves, whenever the prefix does not end in ' -' |
| Script.SeparatorMeansNoDanglingDash | hosts_backup_20251202_161218/Projeto-integrador-2semestre-main/projeto_hosts/js/script.js:723 | a value holding a separator never has a prefix ending in ' -', so idempotence covers every such value |
| Script.DashJoinsSeparator | hosts_backup_20251202_161218/Projeto-integrador-2semestre-main/projeto_hosts/js/script.js:723-724 | behind a value ending in ' -', the separator is found two characters early |
| Script.DanglingDashNotIdempotent | hosts_backup_20251202_161218/Projeto-integrador-2semestre-main/projeto_hosts/js/script.js:716-724 | for a value without a separator that ends in ' -', a second check changes the field again |
| Script.DanglingDashExample | hosts_backup_20251202_161218/Projeto-integrador-2semestre-main/projeto_hosts/js/script.js:716-724 | the value "v -" is one such value |
| Script.InventoryPage.constructor | hosts_backup_20251202_161218/Projeto-integrador-2semestre-main/projeto_hosts/js/script.js:326-328 | the page starts with no assets, an empty table, no selection and no effects |
| Script.InventoryPage.RenderTable | hosts_backup_20251202_161218/Projeto-integrador-2semestre-main/projeto_hosts/js/script.js:331-393 | the table body becomes the placeholder row for an empty list, else one row per asset in order |
| Script.InventoryPage.Load | hosts_backup_20251202_161218/Projeto-integrador-2semestre-main/projeto_hosts/js/script.js:395-408 | a fetched list replaces the loaded assets and is rendered. A failure keeps the list, shows the failure row and an error toast |
| Script.InventoryPage.SearchInput | hosts_backup_20251202_161218/Projeto-integrador-2semestre-main/projeto_hosts/js/script.js:529-540 | the body shows the rendered search result; the loaded list is untouched |
| Script.InventoryPage.AddClick | hosts_backup_20251202_161218/Projeto-integrador-2semestre-main/projeto_hosts/js/script.js:412-419 | the hidden id is cleared, so the next save POSTs, and the modal opens |
| Script.InventoryPage.EditClick | hosts_backup_20251202_161218/Projeto-integrador-2semestre-main/projeto_hosts/js/script.js:364-385 | a missing asset changes nothing. A found one prefills the form, sets the hidden id to its id and opens the modal |
| Script.InventoryPage.Submit | hosts_backup_20251202_161218/Projeto-integrador-2semestre-main/projeto_hosts/js/script.js:434-484 | the effects grow by exactly `SubmitEffects` |
| Script.InventoryPage.DeleteClick | hosts_backup_20251202_161218/Projeto-integrador-2semestre-main/projeto_hosts/js/script.js:387-390 | the row's id is selected and the confirmation modal opens |
| Script.InventoryPage.ConfirmDelete | hosts_backup_20251202_161218/Projeto-integrador-2semestre-main/projeto_hosts/js/script.js:487-507 | nothing happens without a selection. Otherwise the effects grow by `ConfirmDeleteEffects` and the selection is cleared, whatever the reply |
| Script.InventoryPage.ChangePassword | hosts_backup_20251202_161218/Projeto-integrador-2semestre-main/projeto_hosts/js/script.js:585-650 | the effects grow by exactly `PasswordEffects`, a missing input reading as '' |
| Script.Needle | hosts_backup_20251202_161218/Projeto-integrador-2semestre-main/projeto_hosts/js/script.js:530 | the search term is trimmed at both ends and holds no upper-case letter |
| Script.Matches | hosts_backup_20251202_161218/Projeto-integrador-2semestre-main/projeto_hosts/js/script.js:531-537 | a match needs some non-empty column; the empty term matches exactly the assets that have one |
| Script.AstralPairMeetsMinimum | hosts_backup_20251202_161218/Projeto-integrador-2semestre-main/projeto_hosts/js/script.js:599 | two characters outside the Basic Multilingual Plane are four UTF-16 code units, so they meet the four-character minimum |
| Inventario.RenderRow | projeto_hosts/js/inventario.js:80-101 | a row bound to the asset's id with six cells. The name shows 'Sem Nome' when missing, the MAC '-', and the status cell reads Online iff the status is exactly 'Online' |
| Inventario.Search | projeto_hosts/js/inventario.js:107-118 | an asset is kept iff its name or MAC (lower-cased) or its IP (as is) contains the lower-cased, untrimmed term; an order-preserving sub-list of the loaded list |
| Inventario.SearchIgnoresStatusAndCondition | projeto_hosts/js/inventario.js:112-116 | status and condition are not searched: changing them never changes whether an asset is shown |
| Inventario.LeadingSpaceFindsNoSpacelessAsset | projeto_hosts/js/inventario.js:111-116 | the term is not trimmed, so a term starting with a space finds no asset whose name, IP and MAC hold no space |
| Inventario.NoSpaceNoMatch | projeto_hosts/js/inventario.js:111-116 | a text without spaces contains no term that starts with a space |
| Inventario.Members | projeto_hosts/js/inventario.js:171-178 | the payload holds nome, mac, ip and status as typed; condicao, or 'Disponível' when the input is missing; and tipo only when its input exists |
| Inventario.SaveRequest | projeto_hosts/js/inventario.js:169-189 | a PUT to /api/ativos/<id> iff the hidden id is non-empty, else a POST to /api/ativos, with the form's payload |
| Inventario.NoTypeInputSendsNoTipo | projeto_hosts/js/inventario.js:178 | without a type input the request carries no tipo member, so `update_ativo` keeps the stored type |
| Inventario.EditForm | projeto_hosts/js/inventario.js:140-148 | the edit form holds every column as stored (a null empties the input). Condition and type are filled only when their inputs exist, the type defaulting to 'Outros' |
| Inventario.InventarioPage.constructor | projeto_hosts/js/inventario.js:6 | the page starts with an empty list, an empty table, empty hidden inputs and an enabled button |
| Inventario.InventarioPage.PreencherTabela | projeto_hosts/js/inventario.js:70-103 | the body becomes the placeholder row for an empty list, else one row per asset in order |
| Inventario.InventarioPage.Load | projeto_hosts/js/inventario.js:21-33 | any fetched array replaces the list wholesale and is rendered; a failed fetch or parse leaves list and table alone |
| Inventario.InventarioPage.SearchInput | projeto_hosts/js/inventario.js:110-118 | the body shows the rendered search result; the list is untouched |
| Inventario.InventarioPage.Scan | projeto_hosts/js/inventario.js:37-67 | the button is disabled before the request and enabled again last, whatever the outcome. The list reloads and the success toast shows only after an ok scan; otherwise list and table stay and an error toast shows |
| Inventario.InventarioPage.ReloadAfterScan | projeto_hosts/js/inventario.js:53-56 | after an ok scan the list is reloaded, then the success toast shows |
| Inventario.InventarioPage.AddClick | projeto_hosts/js/inventario.js:122-130 | the hidden id is cleared, so the next save POSTs, and the modal opens |
| Inventario.InventarioPage.PrepararEdicao | projeto_hosts/js/inventario.js:132-151 | a no-op when no listed asset has exactly that id. Otherwise the hidden id becomes the asset's id, the form is `EditForm` of it and the modal opens |
| Inventario.InventarioPage.PrepararExclusao | projeto_hosts/js/inventario.js:153-158 | the id goes into the hidden input and the confirmation modal opens |
| Inventario.InventarioPage.SalvarAtivo | projeto_hosts/js/inventario.js:165-200 | the save request is sent. Success closes the modals, reloads and shows a toast; failure shows only an error toast, the modals staying open |
| Inventario.InventarioPage.ConfirmarExclusao | projeto_hosts/js/inventario.js:203-211 | the DELETE of the hidden id is sent. Any completed reply, even an error status, closes the modals, reloads and shows a toast; a rejected request does nothing more |
| Inventario.Matches | projeto_hosts/js/inventario.js:111-116 | a match needs a non-empty nome, IP or MAC; the empty term matches exactly the assets that have one |
| Charts.ComputeKpis | hosts_backup_20251202_161218/Projeto-integrador-2semestre-main/projeto_hosts/js/charts.js:26-29 | total is the list length. online, offline and manutencao count exactly the assets whose status is 'Online', whose status is 'Offline' and whose condition is 'Manutenção'; online + offline <= total |
| Charts.KpisAgreeWithStatistics | hosts_backup_20251202_161218/Projeto-integrador-2semestre-main/projeto_hosts/js/charts.js:22-28 | over the list `GET /api/ativos` returns, the dashboard's total, online and offline equal the server's statistics |
| Charts.Disponibilidade | hosts_backup_20251202_161218/Projeto-integrador-2semestre-main/projeto_hosts/js/charts.js:30 | 0 for an empty list; otherwise online / total x 100, between 0 and 100, and 100 when every asset is online |
| Charts.StatusChart | hosts_backup_20251202_161218/Projeto-integrador-2semestre-main/projeto_hosts/js/charts.js:63-65 | labels Online, Offline, Manutenção with exactly the three counters as data |
| Charts.Bucket | hosts_backup_20251202_161218/Projeto-integrador-2semestre-main/projeto_hosts/js/charts.js:101-120 | every asset lands in one of the four fixed labels |
| Charts.BucketChain | hosts_backup_20251202_161218/Projeto-integrador-2semestre-main/projeto_hosts/js/charts.js:103-120 | the bucket is the first group whose regular expression matches the lower-cased name + " " + tipo text, in the order smartphone, notebook, computer, else Outros |
| Charts.TypeCounts | hosts_backup_20251202_161218/Projeto-integrador-2semestre-main/projeto_hosts/js/charts.js:94-136 | the data follows the fixed labels, zero counts included; each entry counts its bucket's assets and the entries sum to the list length |
| Charts.CountStep | hosts_backup_20251202_161218/Projeto-integrador-2semestre-main/projeto_hosts/js/charts.js:101-120 | one more asset adds one to its own bucket's counter only |
| Charts.BucketsPartition | hosts_backup_20251202_161218/Projeto-integrador-2semestre-main/projeto_hosts/js/charts.js:101-121 | the four counters add up to the list length: every asset increments exactly one |
| Charts.DesenharGraficoTipos | hosts_backup_20251202_161218/Projeto-integrador-2semestre-main/projeto_hosts/js/charts.js:87-159 | the counting loop yields exactly the fixed labels with `TypeCounts` as data |
| Charts.MacbookIsNotebook | hosts_backup_20251202_161218/Projeto-integrador-2semestre-main/projeto_hosts/js/charts.js:110-114 | notebook keywords are tried before the computer group's 'mac', so a MacBook is a notebook |
| Charts.SamsungNotebookIsSmartphone | hosts_backup_20251202_161218/Projeto-integrador-2semestre-main/projeto_hosts/js/charts.js:106-111 | smartphone keywords come first: a Samsung notebook counts as a smartphone |
| Charts.GalaxySModelIsSmartphone | hosts_backup_20251202_161218/Projeto-integrador-2semestre-main/projeto_hosts/js/charts.js:106 | any text holding s20 to s29 is a smartphone |
| Charts.NoKeywordIsOther | hosts_backup_20251202_161218/Projeto-integrador-2semestre-main/projeto_hosts/js/charts.js:117-119 | text with none of the keywords is counted under Outros |
| DashboardData.CardValue | hosts_backup_20251202_161218/Projeto-integrador-2semestre-main/projeto_hosts/js/database.js:71 | `valor \|\| 0`: a missing or null value shows 0, any number shows itself |
| DashboardData.Assign | hosts_backup_20251202_161218/Projeto-integrador-2semestre-main/projeto_hosts/js/database.js:68-73 | writing cards never adds or removes a card: an id the page lacks is skipped |
| DashboardData.AssignSpec | hosts_backup_20251202_161218/Projeto-integrador-2semestre-main/projeto_hosts/js/database.js:68-73 | each present card named once shows its entry's value; every card not named keeps its text |
| DashboardData.CardsShowServerStatistics | hosts_backup_20251202_161218/Projeto-integrador-2semestre-main/projeto_hosts/js/database.js:59-74 | with the four cards present, they show exactly the server's four statistics |
| DashboardData.CountByStatus | hosts_backup_20251202_161218/Projeto-integrador-2semestre-main/projeto_hosts/js/database.js:82-91 | online and offline count the statuses equal to 'online' and 'offline' ignoring case; any other status counts in neither |
| DashboardData.ExactOnlineCounted | hosts_backup_20251202_161218/Projeto-integrador-2semestre-main/projeto_hosts/js/database.js:86-89 | every asset that is exactly 'Online' ('Offline') is counted online (offline) by the case-insensitive test |
| DashboardData.ClientCountsAtLeastServer | hosts_backup_20251202_161218/Projeto-integrador-2semestre-main/projeto_hosts/js/database.js:76-100 | over the list `GET /api/ativos` returns, the page's total equals the server's, and its online and offline counts are at least the server's case-sensitive ones |
| DashboardData.CountForCharts | hosts_backup_20251202_161218/Projeto-integrador-2semestre-main/projeto_hosts/js/database.js:148-157 | exact 'Online' counts online and everything else offline, so the two add up to the list length |
| DashboardData.PieChart | hosts_backup_20251202_161218/Projeto-integrador-2semestre-main/projeto_hosts/js/database.js:172-207 | labels Online and Offline; the slices are the exact-'Online' count and the rest, covering the whole list |
| DashboardData.BarValues | hosts_backup_20251202_161218/Projeto-integrador-2semestre-main/projeto_hosts/js/database.js:216 | one value per asset, 1 iff its status is exactly 'Online', else 0 |
| DashboardData.SumBarValues | hosts_backup_20251202_161218/Projeto-integrador-2semestre-main/projeto_hosts/js/database.js:216 | the bars add up to the number of online assets among them |
| DashboardData.BarCount | hosts_backup_20251202_161218/Projeto-integrador-2semestre-main/projeto_hosts/js/database.js:215-216 | `slice(0, 5)` keeps min(5, n) assets |
| DashboardData.BarChartOf | hosts_backup_20251202_161218/Projeto-integrador-2semestre-main/projeto_hosts/js/database.js:209-251 | the first min(5, n) assets in order: their names as labels, and 1 iff exactly 'Online' as values |
| DashboardData.IdText | hosts_backup_20251202_161218/Projeto-integrador-2semestre-main/projeto_hosts/js/database.js:131 | `ativo.id \|\| '-'`: the id shows as '-' iff it is 0 |
| DashboardData.RenderRow | hosts_backup_20251202_161218/Projeto-integrador-2semestre-main/projeto_hosts/js/database.js:122-140 | seven cells: id, nome, ip, mac (each '-' when missing), the status badge, the condition, and the formatted start date or '-' |
| DashboardData.Dispatch | hosts_backup_20251202_161218/Projeto-integrador-2semestre-main/projeto_hosts/js/database.js:268-285 | statistics always load first. All assets load iff the path has 'ativosnarede', or has 'dashboard' or 'home' but not 'ativosonline'. Online assets load iff the path has 'ativosonline' but not 'ativosnarede'. Never both |
| DashboardData.DashboardLoadsStatisticsTwice | hosts_backup_20251202_161218/Projeto-integrador-2semestre-main/projeto_hosts/js/database.js:275-284 | a dashboard or home page fetches the statistics twice on load |
| DashboardData.DatabasePage.constructor | hosts_backup_20251202_161218/Projeto-integrador-2semestre-main/projeto_hosts/js/database.js:268-272 | the page starts with its own elements, an empty table, no charts and no effects |
| DashboardData.DatabasePage.WriteCards | hosts_backup_20251202_161218/Projeto-integrador-2semestre-main/projeto_hosts/js/database.js:68-73 | the cards become exactly `Assign` of the entries |
| DashboardData.DatabasePage.AtualizarCards | hosts_backup_20251202_161218/Projeto-integrador-2semestre-main/projeto_hosts/js/database.js:59-74 | the four server values are written to the cards in order, as `Assign` states |
| DashboardData.DatabasePage.CalcularEstatisticas | hosts_backup_20251202_161218/Projeto-integrador-2semestre-main/projeto_hosts/js/database.js:76-101 | a null or empty list leaves the cards alone; otherwise total, online and offline are written |
| DashboardData.DatabasePage.AtualizarTabela | hosts_backup_20251202_161218/Projeto-integrador-2semestre-main/projeto_hosts/js/database.js:105-142 | without a table body nothing changes; otherwise the body is the placeholder for an empty list, else one row per asset |
| DashboardData.DatabasePage.AtualizarGraficos | hosts_backup_20251202_161218/Projeto-integrador-2semestre-main/projeto_hosts/js/database.js:146-170 | each chart is redrawn, as `PieChart` and `BarChartOf` state, only when its canvas exists |
| DashboardData.DatabasePage.CarregarAtivos | hosts_backup_20251202_161218/Projeto-integrador-2semestre-main/projeto_hosts/js/database.js:9-28 | one GET /api/ativos. A failure changes nothing; a list updates table, charts and cards |
| DashboardData.DatabasePage.CarregarAtivosOnline | hosts_backup_20251202_161218/Projeto-integrador-2semestre-main/projeto_hosts/js/database.js:30-42 | one GET /api/ativos-online. A failure changes nothing; a list updates table and cards, never the charts |
| DashboardData.DatabasePage.CarregarEstatisticas | hosts_backup_20251202_161218/Projeto-integrador-2semestre-main/projeto_hosts/js/database.js:44-57 | one GET /api/estatisticas. A failure leaves the cards; otherwise `atualizarCards` runs |
| OnlineAssets.StatusBadge | hosts_backup_20251202_161218/Projeto-integrador-2semestre-main/projeto_hosts/js/assets.js:98 | the status badge always has the online class and shows the raw status text, whatever it is |
| OnlineAssets.ConditionBadge | hosts_backup_20251202_161218/Projeto-integrador-2semestre-main/projeto_hosts/js/assets.js:101-104 | each of 'Disponível', 'Manutenção' and 'Alocado' gets its own badge class, iff the condition is exactly that; any other condition gets the plain badge with its text or '-' |
| OnlineAssets.RenderRow | hosts_backup_20251202_161218/Projeto-integrador-2semestre-main/projeto_hosts/js/assets.js:94-121 | six cells for the asset's id: name, MAC and IP ('N/A' when missing), the status and condition badges, and an actions cell with no text |
| OnlineAssets.Table | hosts_backup_20251202_161218/Projeto-integrador-2semestre-main/projeto_hosts/js/assets.js:86-123 | a null or empty list gives exactly the one placeholder row; otherwise one row per asset, in order |
| OnlineAssets.CellMatchInRow | hosts_backup_20251202_161218/Projeto-integrador-2semestre-main/projeto_hosts/js/assets.js:135-138 | a term found in any cell's lowercased text is found in the whole row's lowercased text |
| OnlineAssets.CellMatchKeepsRowVisible | hosts_backup_20251202_161218/Projeto-integrador-2semestre-main/projeto_hosts/js/assets.js:130-139 | searching for anything a rendered cell contains, the name say, keeps that asset's row visible |
| OnlineAssets.EmptyTermShowsAll | hosts_backup_20251202_161218/Projeto-integrador-2semestre-main/projeto_hosts/js/assets.js:130-139 | an empty search term shows every row |
| OnlineAssets.Visibility | hosts_backup_20251202_161218/Projeto-integrador-2semestre-main/projeto_hosts/js/assets.js:135-138 | one flag per row: visible iff the row's lowercased text contains the lowercased term |
| OnlineAssets.ScanOpening | hosts_backup_20251202_161218/Projeto-integrador-2semestre-main/projeto_hosts/js/assets.js:49-59 | before the scan answers, the page disables the button (iff it exists) and may toast, and the POST to /scan-status comes last |
| OnlineAssets.ScanOutcome | hosts_backup_20251202_161218/Projeto-integrador-2semestre-main/projeto_hosts/js/assets.js:61-71 | the table is reloaded iff the scan answered ok and the page has a table; the last toast is the success or the error one |
| OnlineAssets.OnlineAssetsPage.constructor | hosts_backup_20251202_161218/Projeto-integrador-2semestre-main/projeto_hosts/js/assets.js:10-21 | a new page has an empty table, an enabled button and no effects |
| OnlineAssets.OnlineAssetsPage.RenderizarTabelaOnline | hosts_backup_20251202_161218/Projeto-integrador-2semestre-main/projeto_hosts/js/assets.js:82-124 | with a table body, the body becomes `Table` of the list and every row is visible; without one nothing changes |
| OnlineAssets.OnlineAssetsPage.CarregarAtivosOnline | hosts_backup_20251202_161218/Projeto-integrador-2semestre-main/projeto_hosts/js/assets.js:25-40 | without a table nothing is fetched. Otherwise one GET /ativos-online; a JSON answer renders the table and a failure leaves it unchanged |
| OnlineAssets.OnlineAssetsPage.AtualizarOnlineComScan | hosts_backup_20251202_161218/Projeto-integrador-2semestre-main/projeto_hosts/js/assets.js:45-79 | the effects are `ScanOpening` then `ScanOutcome`. The button ends enabled when it exists. The table changes only after an ok scan and a reload that answered |
| OnlineAssets.OnlineAssetsPage.ReloadAfterScan | hosts_backup_20251202_161218/Projeto-integrador-2semestre-main/projeto_hosts/js/assets.js:63-67 | after an ok scan: the reload's effects, then the success toast. The table is rendered from an answered reload and left as it was after a failed one |
| OnlineAssets.OnlineAssetsPage.Buscar | hosts_backup_20251202_161218/Projeto-integrador-2semestre-main/projeto_hosts/js/assets.js:130-139 | the visibility becomes exactly `Visibility` of the rendered rows and the term, and the rows themselves stay |
| Client.ToClient | projeto_hosts/SQlite/api.py:462 | the JSON array has one object per row, in order, each the row's own columns |
| Client.Rendered | hosts_backup_20251202_161218/Projeto-integrador-2semestre-main/projeto_hosts/js/assets.js:86-123 | a render function leaves the placeholder alone for an empty list, else exactly one rendered row per asset in order |
| Client.RenderRows | hosts_backup_20251202_161218/Projeto-integrador-2semestre-main/projeto_hosts/js/assets.js:94-123 | the clearing-and-append loop leaves exactly `Rendered` of the list |
| Client.Member | projeto_hosts/SQlite/api.py:348-360 | `dados.get(key)` is absent iff no member has that key; a found value belongs to a member with that key; a string-only body never reads as null |
| Client.MemberAt | projeto_hosts/SQlite/api.py:348-360 | a key that occurs once in the body is read back with its own value |
| Client.OnlineBadge | projeto_hosts/js/inventario.js:82-84 | the badge reads 'Online' with the online class iff the status is exactly 'Online', and 'Offline' with the other class for every other value, a missing one included. inventario.js and database.js (126-128) each use it with their own classes |
| Client.FindById | projeto_hosts/js/inventario.js:133 | `find` returns the first asset with that id, and none iff no listed asset has it. script.js (365) uses the same search over `assetsData` |
| Common.Column | projeto_hosts/SQlite/api.py:358 | `dados.get(key)` stores a value iff the member is a string, and then that string; absent and null become NULL |
| Common.ColumnOr | projeto_hosts/SQlite/api.py:359-360 | `dados.get(key, d)` uses the default only for an absent member; an explicit null still stores NULL |
| Common.OrElse | hosts_backup_20251202_161218/Projeto-integrador-2semestre-main/projeto_hosts/js/assets.js:114-116 | `o \|\| d` keeps a non-empty string and falls back to the default for null or "" |
| Common.Lower | hosts_backup_20251202_161218/Projeto-integrador-2semestre-main/projeto_hosts/js/script.js:530 | lowercasing keeps the length and maps each character on its own |
| Common.LowerAppend | hosts_backup_20251202_161218/Projeto-integrador-2semestre-main/projeto_hosts/js/assets.js:137 | lowercasing a concatenation is concatenating the lowercased parts |
| Common.LowerIdempotent | hosts_backup_20251202_161218/Projeto-integrador-2semestre-main/projeto_hosts/js/script.js:530 | lowercasing twice is lowercasing once |
| Common.FramedIff | projeto_hosts/SQlite/monitor.py:87-90 | a text read as a fixed head, a varying middle and a fixed tail, with matching length, is exactly their concatenation, and the concatenation reads that way |
| Common.ContainsIff | hosts_backup_20251202_161218/Projeto-integrador-2semestre-main/projeto_hosts/js/script.js:532-536 | `includes` holds iff the term occurs at some position of the text |
| Common.ContainsEmpty | hosts_backup_20251202_161218/Projeto-integrador-2semestre-main/projeto_hosts/js/assets.js:138 | every text contains the empty term |
| Common.ContainsPrepend | hosts_backup_20251202_161218/Projeto-integrador-2semestre-main/projeto_hosts/js/assets.js:137-138 | text put in front keeps every match |
| Common.ContainsAppend | hosts_backup_20251202_161218/Projeto-integrador-2semestre-main/projeto_hosts/js/assets.js:137-138 | text put behind keeps every match |
| Common.FindFirst | hosts_backup_20251202_161218/Projeto-integrador-2semestre-main/projeto_hosts/js/script.js:723 | the position found holds the separator and none occurs before it; none found means it occurs nowhere |
| Common.FindFirstIs | hosts_backup_20251202_161218/Projeto-integrador-2semestre-main/projeto_hosts/js/script.js:723 | an occurrence with none before it is the one found |
| Common.Strip | projeto_hosts/SQlite/api.py:153-154 | the stripped text neither starts nor ends with whitespace |
| Common.TrimLeftSpec | projeto_hosts/SQlite/api.py:153-154 | stripping on the left removes exactly the leading whitespace and keeps the rest |
| Common.TrimRightSpec | projeto_hosts/SQlite/api.py:153-154 | stripping on the right removes exactly the trailing whitespace and keeps the rest |
| Common.StripIdempotent | projeto_hosts/SQlite/api.py:231-239 | stripping an already stripped text changes nothing |
| Common.NatToString | hosts_backup_20251202_161218/Projeto-integrador-2semestre-main/projeto_hosts/SQlite/crud_ativos.py:96 | the decimal text of a number is non-empty and all digits |
| Common.DigitsValueOfNatToString | hosts_backup_20251202_161218/Projeto-integrador-2semestre-main/projeto_hosts/SQlite/crud_ativos.py:96 | reading the decimal text of a number gives the number back |
| Common.ParseInt | hosts_backup_20251202_161218/Projeto-integrador-2semestre-main/projeto_hosts/SQlite/crud_ativos.py:96 | `int(text)` succeeds only on a text with something besides whitespace |
| Common.ParseIntRoundTrip | hosts_backup_20251202_161218/Projeto-integrador-2semestre-main/projeto_hosts/SQlite/crud_ativos.py:96 | every integer's decimal text, sign included, parses back to that integer |
| Common.Filter | hosts_backup_20251202_161218/Projeto-integrador-2semestre-main/projeto_hosts/js/script.js:531-537 | the kept elements are exactly the list's elements that pass the condition, and no more of them than the list has |
| Common.FilterIsSubseq | hosts_backup_20251202_161218/Projeto-integrador-2semestre-main/projeto_hosts/js/script.js:531-537 | filtering keeps the list's order: the result is a sub-list of the input |
| Common.FilterKeepsAll | hosts_backup_20251202_161218/Projeto-integrador-2semestre-main/projeto_hosts/js/script.js:531-537 | a condition every element passes returns the list unchanged |
| Common.Count | hosts_backup_20251202_161218/Projeto-integrador-2semestre-main/projeto_hosts/js/script.js:236-237 | a count is at most the list's length |
| Common.CountIsFilterLength | hosts_backup_20251202_161218/Projeto-integrador-2semestre-main/projeto_hosts/js/script.js:236-237 | counting is the length of the filtered list |
| Common.CountComplement | hosts_backup_20251202_161218/Projeto-integrador-2semestre-main/projeto_hosts/js/script.js:236-237 | a condition and its negation split the list: the two counts add up to its length |
| Common.CountDisjoint | projeto_hosts/SQlite/api.py:472-473 | two conditions that never hold together count at most the whole list |
| Common.CountMono | hosts_backup_20251202_161218/Projeto-integrador-2semestre-main/projeto_hosts/js/database.js:86-89 | a weaker condition counts at least as many elements |
| Common.CountLabels | hosts_backup_20251202_161218/Projeto-integrador-2semestre-main/projeto_hosts/js/charts.js:101-121 | when every element gets one of four distinct labels, the four counts add up to the list's length |
| Common.FirstMatchingFrom | projeto_hosts/SQlite/discovery.py:74-85 | the group found has a keyword in the text and no group before it does; none found iff no group has one |
| Common.Classify | projeto_hosts/SQlite/discovery.py:72-87 | the result is the fallback or the bucket of one of the groups |
| Common.JsLength | hosts_backup_20251202_161218/Projeto-integrador-2semestre-main/projeto_hosts/js/script.js:599 | a string's `.length` in UTF-16 code units is between its character count and twice that, and equals the character count when no character is outside the Basic Multilingual Plane |
| Common.UnderscoreSeparatesDigits | hosts_backup_20251202_161218/Projeto-integrador-2semestre-main/projeto_hosts/SQlite/crud_ativos.py:43 | "1_0" parses as 10, as `int` reads it |
| Common.ParseIntOfNonNegative | hosts_backup_20251202_161218/Projeto-integrador-2semestre-main/projeto_hosts/SQlite/crud_ativos.py:96 | a non-negative integer's decimal text parses back to it |
| Common.ParseIntOfNegative | hosts_backup_20251202_161218/Projeto-integrador-2semestre-main/projeto_hosts/SQlite/crud_ativos.py:96 | a negative integer's text, '-' and its magnitude, parses back to it |

## Left out

- SQL text, connections, commits and Flask routing and CORS are not modelled. Each handler works on the `Database` object, and a reply is a status code and a JSON value.
- Table creation and migration (`criar_tabelas_iniciais`, api.py:90-139) are not modelled. The model starts from tables that already have their final columns.
- The user-management routes (`/api/usuarios` GET, POST, PUT and DELETE, api.py:253-334) and `/api/logout` (api.py:203-207) are not part of this model. They store and list user rows without any rule beyond what `Login` and `TrocarSenha` already cover.
- `GET /api/ativos` (api.py:336-342) is modelled only as `Storage.Table.Listing` plus `Client.ToClient`. It has no handler of its own.
- The `GROUP BY` in `/api/estatisticas/tipos` groups by the coalesced label, ignoring SQLite's alias resolution. The order among groups with equal counts is whatever the insertion sort gives, since SQL leaves it unspecified.
- `nmap`, `nbtstat`, `getmac`, `ping3`, Google Drive, OAuth and `zipfile` are not modelled. What they report is a parameter: a `LiveHost`, a `PingScan`, a `PingReply` per row, a tree of `Entry` values and a boolean outcome per step.
- `Backup.Authenticate`: the service-account load, the stored token's state and the browser OAuth flow are parameters. A token refresh is modelled as always succeeding when a refresh token exists; a refresh that raises is not modelled.
- The monitor's `while True` loop with `time.sleep` (monitor.py:107-110) is modelled as one pass, `VerificarAtivos`. `Monitor.SecondPassQuiet` relates two passes.
- Polling with `setInterval` is not modelled: charts.js:17, inventario.js:17, assets.js:17 and database.js:288-293. Neither is the race between a poll and a user action. Each fetch is one call that replaces the page's list.
- The DOM is modelled only as the table rows, the page's global values and a log of effects. Not modelled: HTML strings, CSS, modal opacity timers, toast animation, the menu toggle (script.js:137-151), the password-eye toggle and the language form (script.js:676).
- script.js outside the inventory table, its search, save and delete, the password change and the version check is not part of this model. That covers the local user-profile display (script.js:84-130) and the dashboard section (script.js:155-300).
- inventario.js's database reset (`abrirModalReset` and `confirmarResetBanco`, inventario.js:213-230) is not modelled. Its `DELETE /api/ativos/reset` has no route in api.py, and the handler has no logic beyond a fetch and button text.
- Chart.js construction, gradients and `destroy` calls are not modelled. A chart is its labels and data.
- `Charts.Disponibilidade` is a `real`. `toFixed` rounding and the count-up animation (`animarNumero`, charts.js:46-51) are not modelled.
- `formatarData` (database.js:255-264) depends on the browser locale. It is a function parameter of `DashboardData.RenderRow`.
- Dates and times (`datetime.now()`, `new Date()`) are parameters. Backup's timestamped archive name is a parameter string. One `now` stamps a handler's `data_inicio` and its alert, and every alert of one monitor or scanner pass. The source calls `datetime.now()` again for each alert (api.py:357 and the `registrar_alerta` calls at api.py:373 and 440, monitor.py:88-90), so its stamps can differ by the time between the calls.
- `Common.Lower` and `Common.Upper` fold only ASCII and Latin-1 letters. String lengths are counted in characters, except where a page compares `.length`: `Common.JsLength` counts UTF-16 code units there, so a character outside the Basic Multilingual Plane counts twice. `Common.Strip` removes only the six ASCII whitespace characters, not the full Unicode set that Python and JavaScript remove.
- `Backup` treats paths as '/'-separated strings over a tree value. Symbolic links and `os.walk` errors are not modelled.
- excluir_ativos.py's formatting of usage time in its listing, and the column widths of both console listings, are not modelled.
- `Api.TipoLabel`: the contract states only the non-null case. A NULL tipo gives 'Não Classificado', which `Api.TiposAtivos` and its lemmas use.
- `Common.ParseInt`: the contract states only that a parsed text is not blank. Which texts parse, and to what value, is stated by `Common.ParseIntRoundTrip` for the decimal text of every integer, and by `Common.UnderscoreSeparatesDigits` for an underscore between digits ("1_0" is 10). Other accepted spellings, such as leading zeros or '+', are not stated. Python's `int` also accepts decimal digits of other scripts (Arabic-Indic, full-width and so on); the model accepts only '0' to '9', so such an answer becomes 0 in `CrudAtivos.TempoOrZero` and an invalid id in the scripts.
- `Script.RewriteVersionIdempotent`: it excludes the values whose prefix ends in " -". For those the rewrite is not idempotent, as `Script.DanglingDashNotIdempotent` shows.
- `Common.Classify`: the contract states that the result is the fallback or one of the buckets. Which group wins is stated by `Common.FirstMatchingFrom` and by `Discovery.GetAssetType` and `Charts.Bucket`.
- `Api.Credential`, `Api.Login`, `Api.TrocarSenhaSpec` and `Api.AddAtivoSpec`: a JSON member is modelled as absent, null or a string (`Common.Field`), and the body as a JSON object. Not modelled: a number or boolean `email` or `senha` in `login`, where `.strip()` raises outside any `try` and Flask answers 500 (api.py:153-154); a number or boolean `senha_atual` or `nova_senha` in `trocar_senha`, where `.strip()` raises inside its `try` and the reply is a 500 with the exception text (api.py:234-248); a body that is not a JSON object, where `dados.get` raises and every POST and PUT handler answers 500; and a numeric `nome`, which `add_ativo` stores as a number.
