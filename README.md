# GerProj in Dafny

GerProj is a project-management system for software teams. A Django
backend keeps sprints, projects (one per demand inside a sprint), Kanban
cards with TODO checklists, card histories, notifications, weekly
priorities, a team hierarchy and a "Geek Day" prize draw. A React frontend
shows them as boards, forms and metrics pages.

This project models the decision logic of that system and proves what it
promises:

- **Sprint rollover.** When a sprint ends, its unfinished cards are
  copied into fresh project copies in the next sprint, and the sprint is
  sealed. This happens through the manual `finalizar` action and the
  daily sweep. The page's own client-side copy of the rule is modelled
  too (`Rollover`, `SprintRollover`).
- **Card history and notifications.** A card save is classified as a
  creation, a move or an update against the stored snapshot. The model
  covers the change list, the log entry, the recipient sets and the
  one-row-per-recipient fan-out with a best-effort push. It also covers
  the client's notification list and its unread counters (`Signals`,
  `NotificationUtils`, `NotificationContext`).
- **Deadlines and weekly priorities.** The per-minute deadline scan
  sorts cards into four exclusive windows and skips a card alerted in
  the last two hours. The model also covers the Friday auto-close, the
  open/closed week map and the reconciliation of a user's priorities
  (`Tasks`, `Models`, `ProjectViews`, `Priorities`).
- **TODO checklists.** Checklists come from area templates, filtered by
  development size and numbered contiguously. The data migration
  backfills them, and a TODO's status moves through a four-state cycle
  (`Serializers`, `PopulateCardTodos`, `MyTasks`).
- **Validators and decision rules.** These are the name-uniqueness and
  field validators, role changes, logins and password changes, and
  hierarchy links. They also cover the node-position upsert, the guard on
  demands, the Geek Day draw, the Kanban drag-and-drop rules and
  required-data checks, the WebSocket token lookup and path sanitisation
  (`Accounts`, `Teams`, `GeekDayViews`, `GeekDayPage`, `ProjectDetails`,
  `SprintDetails`, `Consumers`, `ConfigViews`, `RegisterPage`).
- **Dates and codecs.** The model covers Easter by the Anonymous
  Gregorian computus, Brazilian holidays, business days and suggested
  delivery dates. It also covers the DD/MM/YYYY and ISO masks and parsers
  of the date inputs and pickers, with their round trips (`DateUtils`,
  `DateInput`, `DateTimeInput`, `DateRangePicker`, `DateTimePicker`).
- **Metrics.** Deliveries per user, leaderboards, the day of the sprint a
  delivery falls on and on-time tallies (`Metrics`).

Each source file of the core is one module. Code that changes state step
by step becomes a class whose methods are proved against specification
functions. Examples are the sprint store, the TODO table, the
notification centre, the weekly-priority config, the draw table, the
position table and the client's priority store. Pure logic becomes
functions with lemmas. Three shared modules support them:

- `Common` holds optional values, the stored choice fields, and the
  Python and JavaScript string and number helpers.
- `Calendar` holds day-number arithmetic equivalent to JavaScript `Date`
  and Python `date` on whole days.
- `Sorting` is a stable sort by an integer-tuple key. It stands for
  every comparator sort in the sources.

Clocks are passed in as integers: day numbers, or seconds, minutes or
milliseconds since 1970-01-01. Random choices are parameters or
nondeterministic choices. Database tables are sequences whose positions
are the primary keys.

## Model

| member | source | states |
|---|---|---|
| Rollover.GetProximaSprint | backend/apps/projects/services.py:10-27 | when another sprint is in progress today, the result is in progress and starts no later than any other in-progress sprint; otherwise the result starts after the source ends and no later than any such sprint, and is None exactly when there is none |
| Rollover.EarliestWhere | backend/apps/projects/services.py:17-26 | `order_by('data_inicio').first()` over a filter: the result passes the filter, no passing row starts earlier, and None exactly when no row passes; among equal starts the model picks the row stored first |
| Rollover.PendingOfMembers | backend/apps/projects/services.py:52-59 | a card is pending for a project exactly when it belongs to it and is neither finalizado nor inviabilizado |
| Rollover.CopyCardFields | backend/apps/projects/services.py:73-91 | the copy keeps name, description, url, area, tipo, responsavel, status, priority and both dates, hangs off the new project, takes the actor as creator when given (else the original creator), and turns null lists and texts into [] and '' |
| Rollover.ReplicateShape | backend/apps/projects/services.py:58-71 | each new project is the copy of a source project of the sprint with a pending card, placed in the destination with status criado, and origins appear once each, in table order rather than newest first |
| Rollover.ReplicateProjects | backend/apps/projects/services.py:58-61 | a source project is replicated exactly when it belongs to the sprint and has a pending card |
| Rollover.ReplicateAttached | backend/apps/projects/services.py:63-78 | every copied card hangs off one of the newly created projects |
| Rollover.ReplicateCards | backend/apps/projects/services.py:58-92 | the copied cards are, replica by replica, the copies of the pending cards of that replica's origin |
| Rollover.CopiesForSound | backend/apps/projects/services.py:73-91 | every copied card is the copy of a pending card of a replicated project, attached to that project's replica |
| Rollover.CopiesForComplete | backend/apps/projects/services.py:73-91 | every pending card of a replicated project is copied to that project's replica |
| Rollover.ReplicateCount | backend/apps/projects/services.py:71-92 | the number of copied cards equals the number of pending cards of the replicated projects |
| Rollover.ReplicateExample | backend/apps/projects/management/commands/test_finalizar_sprint.py:87-147 | a project with one open card and one finalizado card gives exactly one replica project holding exactly the copy of the open card |
| Rollover.CopyPending | backend/apps/projects/services.py:73-92 | the inner loop creates the copies of the pending cards, in table order, and counts one per card |
| Rollover.ReplicateLoop | backend/apps/projects/services.py:55-92 | the loop over the sprint's projects creates exactly the replica rows, and `projetos_criados`/`cards_copiados` are their numbers |
| Rollover.DueSprintsSpec | backend/apps/projects/tasks.py:208 | the sweep's list holds exactly the sprints that ended before today and are not finalizada, each once, in `data_fim` order |
| Rollover.ValidAfterReplica | backend/apps/projects/services.py:63-91 | adding the replica rows keeps every project pointing at an existing sprint and every card at an existing project |
| Rollover.SealedPrefixAt | backend/apps/projects/tasks.py:211-215 | after k steps of the sweep a sprint is sealed exactly when it is among the first k due sprints; every other row is untouched |
| Rollover.Store.FinalizarSprintReplicacao | backend/apps/projects/services.py:30-102 | an already finalizada sprint yields the already-finalized result and changes nothing; with no destination the result is None and nothing changes; otherwise the replica rows are appended, the source alone is sealed, and the counts are the numbers of rows created |
| Rollover.Store.Finalizar | backend/apps/projects/views.py:27-49 | 403 and no change for anyone but supervisor or admin, checked first; 404 and no change for an unknown sprint; 200 and no change for an already finalized sprint; 400 and no change when there is no destination; otherwise 200 with the counts, the replica appended and the sprint sealed |
| Rollover.Store.FinalizeDue | backend/apps/projects/tasks.py:211-222 | a due sprint is sealed whether or not a destination exists; with one, exactly its replica is appended and the step reports replicated; without one, no row is added |
| Rollover.Store.FinalizarSprintsPorData | backend/apps/projects/tasks.py:201-223 | exactly the due sprints are sealed and every other sprint is untouched; the projects and cards are those of `Swept`, each due sprint replicated in `data_fim` order against the tables the earlier ones left; `processadas` is the number of due sprints with a destination and `sem_destino` the rest |
| Rollover.SweepStep | backend/apps/projects/tasks.py:212-222 | one sweep step only appends rows, and appends none for a sprint without destination |
| Rollover.Swept | backend/apps/projects/tasks.py:211-222 | the sweep only appends rows to the projects and cards |
| Rollover.WithDestination | backend/apps/projects/tasks.py:219-222 | at most one count per due sprint |
| Rollover.ProximaIgnoresSeal | backend/apps/projects/services.py:10-27 | the destination depends on the dates only, so sealing sprints during the sweep changes no later sprint's destination |
| Rollover.EarliestSameDates | backend/apps/projects/services.py:17-26 | the earliest passing row is fixed by the dates, whatever the `finalizada` flags |
| Models.NewSprint | backend/apps/projects/models.py:6-20 | a new sprint is not finalizada, keeps its name and dates, and satisfies the field constraints exactly when `duracao_dias` >= 1 |
| Models.AssigneesMembers | backend/apps/projects/tasks.py:47-51 | a user is a recipient exactly when they are the card's responsavel or the project's gerente (duplicates kept) |
| Models.AtrasadoPersists | backend/apps/projects/models.py:484-504 | a late priority is never one whose card is finalizado, and stays late as time passes |
| Models.WeekStart | backend/apps/projects/tasks.py:180-182 | `date - weekday()` is a Monday within the six days before the date |
| Models.WeekStartOfWeek | backend/apps/projects/tasks.py:180-182 | every day of a Monday-to-Sunday week maps to that Monday |
| Models.WeekClosedMeaning | backend/apps/projects/models.py:415-420 | `is_semana_fechada` holds exactly when the week's key is stored with value true; an empty map or a missing key reads as open |
| Models.CloseWeekEffect | backend/apps/projects/models.py:422-428 | after `fechar_semana` the week is closed and every other key keeps its presence and value |
| Models.OpenWeekEffect | backend/apps/projects/models.py:430-437 | after `abrir_semana` the week's key is absent, the week reads as open and every other key is untouched |
| Models.OpenWeekIdempotent | backend/apps/projects/models.py:430-437 | opening a week that is not stored changes nothing, and opening twice is opening once |
| Models.CloseThenOpen | backend/apps/projects/models.py:422-437 | closing and then opening a week that was not stored restores the map |
| Models.PriorityConfig.GetConfig | backend/apps/projects/models.py:409-413 | the row with pk = 1 exists afterwards; an existing row keeps its values and a new one has the column defaults |
| Models.PriorityConfig.FecharSemana | backend/apps/projects/models.py:422-428 | stores `week: True`, the week then reads as closed, and nothing else changes |
| Models.PriorityConfig.AbrirSemana | backend/apps/projects/models.py:430-437 | removes the week's key when present, the week then reads as open, and nothing else changes |
| Tasks.BucketWindows | backend/apps/projects/tasks.py:37-129 | each card lands in exactly one bucket: overdue iff `data_fim < now`, 24h iff the remaining time is in [23h50m, 24h10m], 1h iff in [50m, 1h10m], 10min iff in [5m, 15m], and no alert otherwise |
| Tasks.AlertMessage | backend/apps/projects/tasks.py:53-66 | the alert for a card has its window's notification type and that card's id |
| Tasks.ScanAlertsCards | backend/apps/projects/tasks.py:22-38 | every row the scan adds concerns a watched card (data_fim set, neither finalizado nor inviabilizado) inside one of the four windows, with that window's type |
| Tasks.RecentlySentIgnoresScan | backend/apps/projects/tasks.py:35-46 | rows created earlier in the same scan concern other cards, so a card's two-hour check only sees rows that existed before the scan |
| Tasks.AlertsIgnoreScan | backend/apps/projects/tasks.py:40-46 | whether a card alerts does not depend on the rows added for earlier cards |
| Tasks.ScanAlertsAbout | backend/apps/projects/tasks.py:28-156 | the rows about a card are nothing unless it is watched, in a window and without a row of that card and type created at or after now - 2h; otherwise its window's alert to each recipient |
| Tasks.DoubleAlert | backend/apps/projects/tasks.py:47-53 | a user who is both the responsavel and the project gerente receives the alert twice |
| Tasks.WatchedCountStep | backend/apps/projects/tasks.py:22-26 | the count of watched cards grows by one exactly at a card with data_fim set that is neither finalizado nor inviabilizado |
| Tasks.ScanCard | backend/apps/projects/tasks.py:28-156 | one card's work appends its alerts when it alerts against the current rows, and nothing otherwise |
| Tasks.CheckCardDeadlines | backend/apps/projects/tasks.py:13-158 | the rows added are exactly the scan's alerts judged against the rows before the scan, the user table is untouched, and the result counts the watched cards |
| Tasks.VerificarFechamentoAutomatico | backend/apps/projects/tasks.py:161-198 | on a non-Friday nothing changes; on Friday the config exists afterwards and the week starting on that Monday is closed exactly when automatic closing is on, the week is still open and the time of day has reached the limit; otherwise the map is unchanged |
| NotificationUtils.GroupNameInjective | backend/apps/projects/notification_utils.py:55-56 | the push group `user_<id>` is different for different users, so a push reaches only its recipient's group |
| NotificationUtils.SentShape | backend/apps/projects/notification_utils.py:101-115 | the fan-out returns at most as many rows as ids, each the given message addressed to a known user from the list, unread and with `metadata or {}` |
| NotificationUtils.SentCount | backend/apps/projects/notification_utils.py:102-114 | no de-duplication: a known user listed n times gets n rows, an unknown user none |
| NotificationUtils.NotificationCenter.Send | backend/apps/projects/notification_utils.py:12-81 | an unknown user gives None and writes nothing; otherwise exactly one unread row with the given fields is stored and returned, whether or not the push to `user_<id>` gets through |
| NotificationUtils.NotificationCenter.SendToMany | backend/apps/projects/notification_utils.py:84-115 | one send per id in input order; the stored rows and the returned list are exactly the rows for the known ids |
| Signals.CardPreSave | backend/apps/projects/signals.py:28-55 | a stored card gives its status and the 13-field snapshot with null lists read as []; a new or missing row gives no previous status and no snapshot |
| Signals.Classify | backend/apps/projects/signals.py:78-288 | a save is a creation iff Django says created, a move iff the previous status is set and differs from the new one, and then carries both statuses |
| Signals.NoMoveWithoutStatusChange | backend/apps/projects/signals.py:284-288 | an unchanged status, or a missing previous status, never counts as a move |
| Signals.ChangedAmongMembers | backend/apps/projects/signals.py:375-420 | the field filter keeps exactly the listed fields that differ from the snapshot |
| Signals.ChangedAmongIncreasing | backend/apps/projects/signals.py:375-420 | the reported fields keep the order in which the handler checks them |
| Signals.ChangedAmongSame | backend/apps/projects/signals.py:375-420 | two new states that differ from the snapshot on the same fields give the same report |
| Signals.FieldOrderFacts | backend/apps/projects/signals.py:375-589 | the nine reportable fields (nome, descricao, prioridade, area, tipo, responsavel, data_inicio, data_fim, complexity) are each checked once, in that order |
| Signals.ChangedFieldsExact | backend/apps/projects/signals.py:375-589 | a field is reported exactly when it differs from the snapshot, in checking order, so at most nine entries and none twice |
| Signals.ChangedFieldsIgnore | backend/apps/projects/signals.py:375-420 | status, script_url and card_comment never appear in the change list |
| Signals.SnapshotQuiet | backend/apps/projects/signals.py:375-589 | a card compared with its own snapshot reports no field change and no comment change |
| Signals.ComplexityEntries | backend/apps/projects/signals.py:504-589 | the complexity entry lists only the new state: each selected item, the selected development when set and not already listed, and each custom item |
| Signals.AddIfAbsentFacts | backend/apps/projects/signals.py:442-448 | appending a user only when absent keeps the list duplicate-free, keeps its prefix and adds exactly that user |
| Signals.WatcherRecipientsExact | backend/apps/projects/signals.py:434-448 | the comment recipients are the active supervisors, gerentes and admins first, then the responsavel and the project gerente, each listed exactly once |
| Signals.OccurrencesDistinct | backend/apps/projects/signals.py:442-451 | on a duplicate-free list each user occurs once, so the fan-out sends each of them one row |
| Signals.SentReaches | backend/apps/projects/signals.py:450-462 | every existing user on a recipient list receives the message |
| Signals.CreationGuard | backend/apps/projects/signals.py:211-215 | when a CRIADO log already exists for the card the handler returns early with no log and no notification; otherwise it writes exactly one CRIADO entry for that card |
| Signals.FreshCardLogged | backend/apps/projects/signals.py:203-240 | a card with no earlier log entries always gets its CRIADO entry with the creation text |
| Signals.AlteracaoRule | backend/apps/projects/signals.py:597-611 | an update writes an ALTERACAO entry exactly when the change list is non-empty |
| Signals.UpdateNotifiesAssignees | backend/apps/projects/signals.py:591-643 | an update always sends CARD_UPDATED to the responsavel and the project gerente, with the generic message when the change list is empty |
| Signals.MoveOutput | backend/apps/projects/signals.py:288-321 | a move writes no log and sends exactly the move notifications, whatever other fields changed |
| Signals.MovedRows | backend/apps/projects/signals.py:301-321 | move notifications are CARD_MOVED rows, and a user who is both responsavel and gerente gets two |
| Signals.MoveNotifies | backend/apps/projects/signals.py:288-321 | a move produces no log entry, only CARD_MOVED rows, two for a user holding both roles |
| Signals.CommentNotifiedOnce | backend/apps/projects/signals.py:422-462 | a changed comment (str-and-strip, None same as '') reaches each active supervisor/gerente/admin, the responsavel and the gerente exactly once, and nobody else |
| Signals.DemandReviewersNotified | backend/apps/projects/signals.py:269-281 | creating a card in the 'Sugestões' project notifies every active supervisor and admin |
| Signals.CardTodoPreSave | backend/apps/projects/signals.py:740-756 | a stored TODO gives its status and comment; a new or missing one gives neither |
| Signals.TodoReportOf | backend/apps/projects/signals.py:859-929 | a TODO save is silent exactly when it is an update whose status (old set and different) and trimmed comment both did not change |
| Signals.TodoNotifyRule | backend/apps/projects/signals.py:827-929 | TODO notifications are sent only for an existing card when the TODO is new or its status or comment changed; then each listed user (watchers, responsavel, gerente, de-duplicated) gets exactly one |
| Signals.TodoDeletedOnce | backend/apps/projects/signals.py:759-824 | removing a TODO of an existing card tells each watcher, the responsavel and the gerente exactly once |
| Signals.CardDeletedRows | backend/apps/projects/signals.py:662-681 | a deleted card's responsavel and gerente are told without de-duplication, and the rows carry no card id |
| Signals.SendAll | backend/apps/projects/notification_utils.py:102-114 | sending one message to a list appends exactly the rows for its known users |
| Signals.NotifyCreated | backend/apps/projects/signals.py:245-281 | creation sends to responsavel, then gerente, then the reviewers for a demand |
| Signals.OnCreated | backend/apps/projects/signals.py:78-281 | the creation branch appends the CRIADO entry unless one exists and the creation notifications, or nothing when the entry already existed |
| Signals.NotifyUpdated | backend/apps/projects/signals.py:613-659 | the update notifications go to responsavel, gerente and, for a demand, to the reviewers |
| Signals.NotifyComment | backend/apps/projects/signals.py:432-462 | a comment change sends one CARD_UPDATED row per de-duplicated recipient |
| Signals.NotifyDemand | backend/apps/projects/signals.py:645-659 | a demand card notifies every active supervisor and admin |
| Signals.OnUpdated | backend/apps/projects/signals.py:322-659 | the update branch appends the ALTERACAO entry when something changed, and the comment, update and demand notifications |
| Signals.LogUpdate | backend/apps/projects/signals.py:597-611 | the ALTERACAO entry is appended only when the change list is non-empty |
| Signals.CardSaved | backend/apps/projects/signals.py:71-659 | the log entries and notifications appended are exactly those of the save's kind: creation, move or update |
| Signals.CardTodoUpdatedSignal | backend/apps/projects/signals.py:827-929 | appends exactly the TODO notifications the rule allows (on its own, not composed into `CreateCard`) |
| Signals.CardTodoDeletedSignal | backend/apps/projects/signals.py:759-824 | appends exactly the removal notifications for the card's watchers and assignees |
| Signals.CardDeletedSignal | backend/apps/projects/signals.py:662-681 | appends one CARD_DELETED row per existing assignee entry |
| Accounts.NewUser | backend/apps/accounts/models.py:14-20 | a user created without a role is a desenvolvedor |
| Accounts.ExactlyOneRole | backend/apps/accounts/models.py:44-66 | every user holds exactly one of the six `is_<role>` properties, each being role == that constant |
| Accounts.Saved | backend/apps/accounts/models.py:35-39 | after `save` a superuser's role is admin, a non-superuser is stored unchanged, and nothing but the role ever changes |
| Accounts.SavedIdempotent | backend/apps/accounts/models.py:35-39 | saving twice stores what saving once stores |
| Accounts.UserAccount.Save | backend/apps/accounts/models.py:35-39 | the object's role is coerced before it is persisted, and the persisted row is the coerced object |
| Accounts.FormatUserName | backend/apps/projects/serializers.py:6-16 | None for no user; "first last" when both names are set; else the one that is set; else the username |
| Accounts.FormatUserNameNonEmpty | backend/apps/teams/serializers.py:6-16 | a user with a username always gets a non-empty name, starting with the first name when there is one |
| Accounts.ValidateRole | backend/apps/accounts/serializers.py:20-53 | an accepted role is returned unchanged |
| Accounts.ValidateRoleMeaning | backend/apps/accounts/serializers.py:20-53 | without a request every value passes; with one a value passes exactly when making or unmaking a supervisor is done by an admin and each of gerente, desenvolvedor, dados, processos is set by an admin or supervisor |
| Accounts.AdminRoleUnguarded | backend/apps/accounts/serializers.py:33-51 | 'admin' is in no guarded list, so any requester may give it to a user who is not currently a supervisor |
| Accounts.DeveloperPromotesToAdmin | backend/apps/accounts/serializers.py:33-53 | a desenvolvedor editing a desenvolvedor account may set its role to admin |
| Accounts.ValidateRoleGuarded | backend/apps/accounts/serializers.py:20-53 | with an admin-only guard on the admin role, an accepted role is returned unchanged |
| Accounts.ValidateRoleGuardedMeaning | backend/apps/accounts/serializers.py:20-53 | with the guard, exactly the allowed changes pass that do not grant admin without an admin requester, so only an admin hands out supervisor or admin |
| Accounts.ValidateLogin | backend/apps/accounts/serializers.py:65-78 | login succeeds exactly when both credentials are non-empty, authentication finds a user and that user is active; missing credentials give their own error |
| Accounts.CharField | backend/apps/accounts/serializers.py:82-83 | a field passes exactly when its stripped value is non-blank and meets the minimum length, and the stripped value is kept |
| Accounts.ValidateCurrentPassword | backend/apps/accounts/serializers.py:85-89 | the current password passes exactly when there is a request and it matches the requester's password |
| Accounts.ChangePassword | backend/apps/accounts/serializers.py:81-89 | a password change validates exactly when the stripped current password is non-blank and correct and the stripped new password has at least 8 characters |
| Teams.ValidateHierarchy | backend/apps/teams/serializers.py:65-75 | rejected with the missing-link message exactly when gerente and desenvolvedor are both missing; otherwise the data comes back unchanged |
| Teams.ValidateHierarchyIdempotent | backend/apps/teams/serializers.py:65-75 | validating accepted data again accepts it again unchanged |
| Teams.RowOf | backend/apps/teams/views.py:52-54 | finds the row of a user when there is one, and None exactly when no row has that user |
| Teams.Patched | backend/apps/teams/views.py:56-58 | a partial update replaces exactly the coordinates the request carries, keeps the user and stamps `updated_at` |
| Teams.PositionTable.Create | backend/apps/teams/views.py:46-65 | 400 and no write without a user; a user with a row is patched in place with 200; otherwise a new row with 201 when the serializer accepts the data, else 400 and no write; at most one row per user is kept |
| Teams.PositionTable.Bulk | backend/apps/teams/views.py:67-72 | returns every stored position, each once, ordered by user as `Meta.ordering = ['user']` orders them |
| Teams.UpsertGrowsOnlyForNewUser | backend/apps/teams/models.py:133-140 | appending a row keeps one row per user exactly when the user had none |
| Consumers.SplitLength | backend/apps/projects/consumers.py:23 | splitting on a separator gives one part more than the separator occurs |
| Consumers.PiecesToDictBadPiece | backend/apps/projects/consumers.py:23 | one piece with two or more '=' makes the `dict` construction fail wherever it stands |
| Consumers.QueryWithDoubleEqualsFails | backend/apps/projects/consumers.py:18-24 | a query string holding a piece such as `a=b=c` cannot be read, so `connect` raises |
| Consumers.TokenQueryReads | backend/apps/projects/consumers.py:22-24 | the query string `token=<key>` reads back as exactly that key |
| Consumers.OnePiece | backend/apps/projects/consumers.py:23 | a query string without '&' that has an '=' is kept as one piece |
| Consumers.OnePair | backend/apps/projects/consumers.py:23 | a lone `key=value` piece gives a one-entry dictionary |
| Consumers.HeaderValue | backend/apps/projects/consumers.py:28-29 | a non-empty header value is the value of some header of that name |
| Consumers.HeaderToken | backend/apps/projects/consumers.py:30-31 | a key is found exactly when the header starts with `Token `, and the header is that prefix followed by the key |
| Consumers.HeaderTokenRoundTrip | backend/apps/projects/consumers.py:30-31 | `Token <key>` yields back the key |
| Consumers.FindTokenPrecedence | backend/apps/projects/consumers.py:17-31 | a non-empty query token wins over any header; without a query string, the key of a `Token <key>` header is used |
| Consumers.UserFromToken | backend/apps/projects/consumers.py:85-92 | a user is found exactly when the token exists, names a known user and that user is active, and it is the token's user |
| Consumers.DiscardAfterAdd | backend/apps/projects/consumers.py:41-44 | leaving a group just joined removes the channel from it and leaves every other group as it was |
| Consumers.ChannelLayer.GroupAdd | backend/apps/projects/consumers.py:41-44 | the layer's groups become the old ones with the channel added to the named group |
| Consumers.ChannelLayer.GroupDiscard | backend/apps/projects/consumers.py:57-60 | the layer's groups become the old ones with the channel taken out of the named group |
| Consumers.NotificationConsumer.constructor | backend/apps/projects/consumers.py:13-15 | a new socket has no user |
| Consumers.NotificationConsumer.Connect | backend/apps/projects/consumers.py:13-52 | raises exactly when the query string cannot be read; admits exactly when a non-empty token names an active user, joining `user_<id>`; otherwise closes and changes nothing |
| Consumers.NotificationConsumer.Disconnect | backend/apps/projects/consumers.py:54-60 | an admitted socket leaves its group; one never admitted changes nothing |
| Consumers.NotificationConsumer.Receive | backend/apps/projects/consumers.py:62-73 | a pong is sent exactly for a ping object; JSON that is not an object raises; anything else is ignored |
| ConfigViews.StrippedHasNoEdgeSlash | backend/config/views.py:12-13 | after stripping, a path has no '/' at either end, so the unsafe check reduces to containing ".." |
| ConfigViews.ContentType | backend/config/views.py:18-19 | the guessed type when there is a non-empty one, else `application/octet-stream` |
| ConfigViews.ServeMedia | backend/config/views.py:7-19 | a file is served exactly when the media root exists, the stripped path has no ".." and names a file, with the guessed type; every other request is a 404 |
| ConfigViews.ServeSpa | backend/config/views.py:43-59 | a JSON 404 exactly when there is no build; a 404 for a path with ".."; the named file when the stripped path is non-empty and names one; else index.html as text/html, or a 404 without it |
| ConfigViews.ServedPathsAreSafe | backend/config/views.py:12-14 | no served path contains ".." or starts with '/', and every one is a file of the directory |
| ConfigViews.SpaRouteFallsBack | backend/config/views.py:51-59 | a client-side route that names no built file gets the index page |
| Serializers.FirstProjectNamesake | backend/apps/projects/serializers.py:57-68 | finds a project that makes the name collide in the sprint, or None exactly when there is none |
| Serializers.ValidateProjectName | backend/apps/projects/serializers.py:52-73 | rejected with the sprint message exactly when the request names a sprint and another project of that sprint (other than the one edited) has the name; otherwise the name comes back unchanged |
| Serializers.ProjectNameUncheckedWithoutSprint | backend/apps/projects/serializers.py:63-65 | a request that names no sprint is never checked for a duplicate name |
| Serializers.ProjectNameIgnoresSelf | backend/apps/projects/serializers.py:56-58 | editing a project never collides with that project itself |
| Serializers.FirstOpenNamesake | backend/apps/projects/serializers.py:442-452 | finds a card, other than the one edited, with the name that is neither finished nor dropped, or None exactly when there is none |
| Serializers.ValidateCardName | backend/apps/projects/serializers.py:438-458 | rejected with the duplicate message exactly when another card with the name is still open; otherwise the name comes back unchanged |
| Serializers.CardNameFreedByClosing | backend/apps/projects/serializers.py:450-452 | finishing or dropping the last open namesake makes the name acceptable again |
| Serializers.ValidateArea | backend/apps/projects/serializers.py:152-157 | a blank area becomes 'backend'; any other area is kept |
| Serializers.AreaField | backend/apps/projects/models.py:157-162 | a sent area is accepted exactly when it is one of CardArea's five choices and is then kept; anything else, the empty and the blank text included, is refused with `invalid_choice`; an omitted area takes the default 'backend' |
| Serializers.AreaFieldSkipsBlankBranch | backend/apps/projects/serializers.py:152-157 | through the serializer `validate_area` returns every area it sees unchanged, and a blank area is refused before it runs |
| Serializers.ValidateAreaIdempotent | backend/apps/projects/serializers.py:152-157 | a validated area is never blank, and validating it again keeps it |
| Serializers.Normalized | backend/apps/projects/serializers.py:140-164 | the stored card has lists, `[]` in place of a missing or null value, and a validated area; every other field is the input's |
| Serializers.NormalizedIdempotent | backend/apps/projects/serializers.py:140-164 | normalizing a stored card changes nothing more |
| Serializers.TemplateFor | backend/apps/projects/serializers.py:310-387 | the backend checklist has 14 items, frontend 18, and rpa, sistema and script 10 each; any other area gets none |
| Serializers.KeptMembers | backend/apps/projects/serializers.py:396-411 | an item becomes a TODO exactly when it is in the area's checklist and is no development size or a selected one |
| Serializers.KeptConcat | backend/apps/projects/serializers.py:396-411 | filtering a concatenated checklist filters each part |
| Serializers.KeptAll | backend/apps/projects/serializers.py:405-411 | a checklist with no development size is kept whole |
| Serializers.KeptBackendFrontend | backend/apps/projects/serializers.py:310-346 | the backend and frontend checklists ignore the selected complexity |
| Serializers.KeptSizes | backend/apps/projects/serializers.py:390-411 | of the three development sizes exactly the selected ones, in the list or as the selected development, are kept, smallest first |
| Serializers.KeptAutomation | backend/apps/projects/serializers.py:347-386 | the rpa, sistema and script checklists keep their seven fixed items and, between them, exactly the selected sizes |
| Serializers.OriginalTodo | backend/apps/projects/serializers.py:415-421 | a created TODO is original, pending and without a comment |
| Serializers.RowsSnoc | backend/apps/projects/serializers.py:413-422 | one more kept item inserts its TODO unless an original with its label exists, in the table or among the rows just inserted, and always takes the next order slot |
| Serializers.RowsShape | backend/apps/projects/serializers.py:413-422 | each inserted row is an original pending TODO of the card whose order is the slot of a kept item carrying its label |
| Serializers.RowsOrdered | backend/apps/projects/serializers.py:394-422 | the orders of inserted rows strictly increase |
| Serializers.RowsFresh | backend/apps/projects/serializers.py:413-414 | no inserted row duplicates an original label the card already had, and no two inserted rows share a label |
| Serializers.RowsCover | backend/apps/projects/serializers.py:396-422 | afterwards every kept item's label has an original TODO of the card |
| Serializers.RowsOfFreshCard | backend/apps/projects/serializers.py:394-422 | for a card without original TODOs every kept item becomes a TODO, with orders 0, 1, 2, … in checklist order |
| Serializers.TemplatesDistinct | backend/apps/projects/serializers.py:310-385 | no two items of an area's checklist share a label |
| Serializers.KeptDistinct | backend/apps/projects/serializers.py:396-411 | filtering a checklist keeps its labels distinct |
| Serializers.TodoTable.Exists | backend/apps/projects/serializers.py:414 | true exactly when the card already has an original TODO with that label |
| Serializers.TodoTable.AddIfMissing | backend/apps/projects/serializers.py:414-421 | inserts the original TODO exactly when none with its label exists, and otherwise leaves the table alone |
| Serializers.TodoTable.Instantiate | backend/apps/projects/serializers.py:387-422 | the table grows by exactly the rows the filtered checklist calls for, and the count returned is the number inserted |
| Serializers.CreatedTodosOfNewCard | backend/apps/projects/serializers.py:306-422 | a new card of a known area gets one pending original TODO per kept item, ordered 0, 1, 2, … |
| Serializers.CriadoAfterSignal | backend/apps/projects/serializers.py:292-300 | after the post-save handler the card has a CRIADO log, so the serializer's fallback log is not written again |
| Serializers.SaveNewCard | backend/apps/projects/serializers.py:176-300 | saving the card appends the creation logs and notifications, and keeps the notification center valid |
| Serializers.CreateCard | backend/apps/projects/serializers.py:96-429 | an area outside the choices gives a 400 with nothing written; otherwise the card stored is the normalized input with the accepted area, which always has a checklist, and its creation logs, notifications and checklist TODOs are appended; the TODO signal's notifications are not among them |
| PopulateCardTodos.TodosOfConcat | backend/apps/projects/migrations/0020_populate_card_todos.py:100-149 | a card's TODOs in a concatenated table are its TODOs in each part |
| PopulateCardTodos.TodosOfMembers | backend/apps/projects/migrations/0020_populate_card_todos.py:102 | a TODO is selected for a card exactly when it is in the table and belongs to that card |
| PopulateCardTodos.NonOriginalsMembers | backend/apps/projects/migrations/0020_populate_card_todos.py:156-161 | the reversed table keeps exactly the TODOs that are not original |
| PopulateCardTodos.AnyOriginal | backend/apps/projects/migrations/0020_populate_card_todos.py:102-104 | true exactly when the card already has an original TODO |
| PopulateCardTodos.PopulateCard | backend/apps/projects/migrations/0020_populate_card_todos.py:100-149 | a card with an original TODO or without a checklist is skipped; otherwise it is worked on and its rows are appended, and the count returned is the rows inserted |
| PopulateCardTodos.Populate | backend/apps/projects/migrations/0020_populate_card_todos.py:6-153 | the table grows by exactly the rows each card calls for in turn, and the totals reported are the cards worked on and the rows inserted |
| PopulateCardTodos.PopulatedStep | backend/apps/projects/migrations/0020_populate_card_todos.py:100-149 | one more card adds its rows, computed against the table as it then stands, and counts when it is worked on |
| PopulateCardTodos.PopulatedOwn | backend/apps/projects/migrations/0020_populate_card_todos.py:136-146 | every inserted row is an original TODO of one of the cards processed |
| PopulateCardTodos.PopulatedFor | backend/apps/projects/migrations/0020_populate_card_todos.py:100-149 | each card gets exactly the rows it would get alone against the table before the migration |
| PopulateCardTodos.ProcessedCountAlone | backend/apps/projects/migrations/0020_populate_card_todos.py:100-149 | the card total reported is decided against the table before the migration |
| PopulateCardTodos.SkipsCardWithOriginals | backend/apps/projects/migrations/0020_populate_card_todos.py:102-106 | a card that already has an original TODO gets nothing |
| PopulateCardTodos.SkipsAreaWithoutTemplate | backend/apps/projects/migrations/0020_populate_card_todos.py:108-114 | a card whose area has no checklist gets nothing |
| PopulateCardTodos.FillsFreshCard | backend/apps/projects/migrations/0020_populate_card_todos.py:116-147 | any other card gets exactly the rows the card serializer gives a new card: one original pending TODO per kept item, ordered 0, 1, 2, … |
| PopulateCardTodos.ProcessedIsFreshCards | backend/apps/projects/migrations/0020_populate_card_todos.py:94-153 | the reported card total is the number of cards without an original TODO whose area has a checklist |
| PopulateCardTodos.RowsNonEmpty | backend/apps/projects/migrations/0020_populate_card_todos.py:136-146 | a card without originals gets at least one row from a non-empty kept list |
| PopulateCardTodos.TemplateForFirstItemsKept | backend/apps/projects/migrations/0020_populate_card_todos.py:8-92 | the first item of every checklist is never a development size, so it is always kept |
| PopulateCardTodos.PopulatedCoversCards | backend/apps/projects/migrations/0020_populate_card_todos.py:100-149 | after the migration every card has an original TODO or has no checklist |
| PopulateCardTodos.NothingToDo | backend/apps/projects/migrations/0020_populate_card_todos.py:100-149 | when no card is to be worked on, nothing is inserted |
| PopulateCardTodos.RerunIsNoOp | backend/apps/projects/migrations/0020_populate_card_todos.py:102-106 | running the migration a second time inserts nothing |
| PopulateCardTodos.ReversePopulate | backend/apps/projects/migrations/0020_populate_card_todos.py:156-161 | the reverse migration leaves exactly the non-original TODOs, in their order |
| PopulateCardTodos.ForwardThenReverse | backend/apps/projects/migrations/0020_populate_card_todos.py:6-161 | migrating forward and back leaves exactly the non-original TODOs there were before |
| PopulateCardTodos.ReverseThenForward | backend/apps/projects/migrations/0020_populate_card_todos.py:156-161 | after the reverse migration no card has an original TODO, so a new forward run works on every card with a checklist |
| ProjectViews.DemandGuard | backend/apps/projects/views.py:87-140 | a card change goes through exactly when the card is outside the 'Sugestões' project, or the requester is a supervisor or admin, or created it; otherwise a 403 with the edit or delete message |
| ProjectViews.DemandGuardRule | backend/apps/projects/views.py:100-136 | editing and deleting follow the same rule, and a demand without a creator is closed to everyone below supervisor |
| ProjectViews.ParseTodoStatus | backend/apps/projects/views.py:286 | exactly the codes pending, completed, blocked and warning are accepted, each as the status with that code |
| ProjectViews.ParseTodoStatusCode | backend/apps/projects/views.py:286 | every TODO status's code is accepted as that status |
| ProjectViews.UpdateStatus | backend/apps/projects/views.py:281-303 | an unknown code is a validation error that changes nothing; a known one is stored in that TODO alone and the update signal runs with the row's previous status and comment |
| ProjectViews.UpdateStatusReport | backend/apps/projects/views.py:291-301 | setting the status a TODO already has notifies nobody; setting another reports a status change alone |
| ProjectViews.PriorityRank | backend/apps/projects/views.py:206 | absoluta, alta, media and baixa rank 0 to 3, and every other priority ranks 99 |
| ProjectViews.UserCardsMeaning | backend/apps/projects/views.py:196-211 | a user's list is sorted by (rank, date) and is a permutation of exactly the listed cards assigned to that user |
| ProjectViews.UserCardsOrder | backend/apps/projects/views.py:206-211 | in a user's list a better rank comes first, and among equal ranks the earlier of data_fim, else data_inicio, else created_at |
| ProjectViews.UserRows | backend/apps/projects/views.py:213-242 | one row per active user |
| ProjectViews.PrioritiesViewRows | backend/apps/projects/views.py:213-258 | every active user gets exactly one row, holding that user's sorted cards, and no one else gets a row |
| ProjectViews.PrioritiesViewOrder | backend/apps/projects/views.py:252-256 | users with cards come before users without, and among them a better first-card rank comes first |
| ProjectViews.OutsideWeekMeaning | backend/apps/projects/views.py:475-477 | clearing keeps exactly the rows of other weeks and removes as many rows as it counts |
| ProjectViews.OutsideWeekUnique | backend/apps/projects/views.py:475-477 | deleting rows keeps the (usuario, card, semana_inicio) keys unique |
| ProjectViews.PriorityTable.constructor | backend/apps/projects/views.py:488-491 | the table starts empty and valid |
| ProjectViews.PriorityTable.Create | backend/apps/projects/views.py:521-548 | 403 below supervisor; 400 when the (usuario, card, semana_inicio) key is taken; otherwise 201 and the row is stored with the requester as definido_por; the keys stay unique |
| ProjectViews.PriorityTable.DeleteWeek | backend/apps/projects/views.py:475-477 | the rows of the week are deleted, the rest kept in order, and their number is returned |
| ProjectViews.CloseCurrentWeek | backend/apps/projects/views.py:439-456 | a supervisor or admin closes the Monday of today's week, which then reads as closed; anyone else is refused and nothing changes |
| ProjectViews.ClearPriorities | backend/apps/projects/views.py:458-485 | below supervisor nothing changes; an open current week is an error that keeps the rows; a closed one has its priorities deleted and counted and is reopened |
| ProjectViews.ClearedWeekEmpty | backend/apps/projects/views.py:475-481 | after clearing, the week holds no priority and other weeks lose none |
| GeekDayViews.FindAccount | backend/apps/geekday/views.py:170-177 | finds an account exactly when one has that id, and it is that account's user |
| GeekDayViews.DrawCount | backend/apps/geekday/views.py:39-42 | a user's draw count never exceeds the number of draws |
| GeekDayViews.LatestMapMeaning | backend/apps/geekday/views.py:33-36 | the latest-draw map has a key exactly for the users with a draw, holding the instant of one of their latest draws |
| GeekDayViews.TotalsMapMeaning | backend/apps/geekday/views.py:38-42 | the totals map holds each drawn user's number of draws and has no key for a user without one |
| GeekDayViews.StatusListMembers | backend/apps/geekday/views.py:31-66 | the status list holds exactly one row per non-admin account |
| GeekDayViews.UsersStatusMeaning | backend/apps/geekday/views.py:23-71 | an account is listed exactly when it is not an admin; ja_sorteado holds exactly when the user has a draw; the total is the number of draws and the last instant that of a latest draw |
| GeekDayViews.StatusListNoAdmin | backend/apps/geekday/views.py:31 | no admin is ever listed |
| GeekDayViews.AvailableNotDrawn | backend/apps/geekday/views.py:91-99 | the users the draw may pick are exactly the non-admins not among the drawn ids |
| GeekDayViews.DrawTable.UsersStatus | backend/apps/geekday/views.py:23-71 | the aggregation loops build exactly the status list of the two maps, in the order the accounts are given |
| GeekDayViews.DrawTable.RealizarSorteio | backend/apps/geekday/views.py:74-148 | 403 below gestor and nothing changes; otherwise the totals are the non-admin users and the distinct drawn users; 400 when no one is available; else one available user gets exactly one non-manual draw by the requester now |
| GeekDayViews.DrawTable.MarcarComoSorteado | backend/apps/geekday/views.py:150-201 | 403 below gestor, 400 without an id, 404 for an unknown user, 400 when that user was drawn today, each changing nothing; otherwise exactly one manual draw with the notes is appended |
| GeekDayViews.DrawTable.LatestDrawOf | backend/apps/geekday/views.py:233 | None exactly when the user has no draw; otherwise the index of one of the user's latest draws |
| GeekDayViews.DrawTable.DesmarcarComoSorteado | backend/apps/geekday/views.py:204-256 | 403, 400 without an id, 404 and 400 without a draw change nothing; otherwise exactly one of the user's latest draws is deleted and the message names the user |
| GeekDayViews.DrawTable.ResetarSorteios | backend/apps/geekday/views.py:259-274 | 403 below gestor and nothing changes; otherwise every draw is deleted and the count is the number there were |
| GeekDayViews.RemovalCount | backend/apps/geekday/views.py:233-241 | deleting one draw lowers its user's count by one and leaves every other count alone |
| GeekDayViews.AppendedDrawShows | backend/apps/geekday/views.py:130-134 | a new draw makes its user show as drawn, with one more draw |
| GeekDayViews.ResetFreesEveryone | backend/apps/geekday/views.py:270 | after a reset every non-admin user is listed as not drawn and is available again |
| DateUtils.EasterInSpring | frontend/src/lib/dateUtils.ts:14-30 | for every year from 0 on the computus lands between 22 March and 25 April |
| DateUtils.Easter2024 | frontend/src/lib/dateUtils.ts:14-30 | Easter 2024 is 31 March |
| DateUtils.Easter2025 | frontend/src/lib/dateUtils.ts:14-30 | Easter 2025 is 20 April |
| DateUtils.MovableHolidays | frontend/src/lib/dateUtils.ts:33-55 | the movable holidays are Carnival Monday (Easter − 48), Carnival Tuesday (Easter − 47), Good Friday (Easter − 2) and Corpus Christi (Easter + 60) |
| DateUtils.IsHoliday | frontend/src/lib/dateUtils.ts:58-83 | a day is a holiday exactly when its (month, day) is one of the eight fixed pairs or it is one of its year's movable holidays |
| DateUtils.FixedAt | frontend/src/lib/dateUtils.ts:64-68 | the scan finds the pair exactly when it is among the remaining fixed holidays |
| DateUtils.MovableAt | frontend/src/lib/dateUtils.ts:71-80 | the scan finds the day exactly when it is among the remaining movable holidays |
| DateUtils.ChristmasIsHoliday | frontend/src/lib/dateUtils.ts:2-11 | 25 December 2025 is a holiday |
| DateUtils.CarnivalIsHoliday | frontend/src/lib/dateUtils.ts:37-42 | Carnival Tuesday 2025, 4 March, is a holiday |
| DateUtils.AshWednesdayIsNotHoliday | frontend/src/lib/dateUtils.ts:58-83 | 5 March 2025 is not a holiday |
| DateUtils.NotHolidayOf | frontend/src/lib/dateUtils.ts:58-83 | a day matching no fixed pair and none of its year's movable holidays is no holiday |
| DateUtils.TotalDays | frontend/src/lib/dateUtils.ts:92-98 | equal dates count one day, and an interval that does not run backwards counts at least one |
| DateUtils.TotalDaysWhole | frontend/src/lib/dateUtils.ts:92-98 | an interval of exactly k days counts k + 1 |
| DateUtils.CountBusinessDays | frontend/src/lib/dateUtils.ts:101-115 | the day-by-day loop counts exactly the days of the inclusive interval that are neither weekend nor holiday |
| DateUtils.BusinessDaysEmpty | frontend/src/lib/dateUtils.ts:107 | an interval ending before it starts has no business days |
| DateUtils.BusinessDaysBounded | frontend/src/lib/dateUtils.ts:101-115 | the business days never exceed the inclusive day count |
| DateInput.MaskDigits | frontend/src/components/ui/date-input.tsx:36-42 | the masked text has at most ten characters |
| DateInput.DisplayOfIso | frontend/src/components/ui/date-input.tsx:12-16 | a well-formed ISO date is shown as its day, month and year separated by '/' |
| DateInput.DigitsOfDisplay | frontend/src/components/ui/date-input.tsx:22 | the digits of 'DD/MM/YYYY' are the day, month and year digits in that order |
| DateInput.DigitsOfMask | frontend/src/components/ui/date-input.tsx:36-42 | masking keeps the first eight digits and nothing else |
| DateInput.ApplyMaskIdempotent | frontend/src/components/ui/date-input.tsx:36-42 | masking the masked text again changes nothing |
| DateInput.MaskOfPrefix | frontend/src/components/ui/date-input.tsx:41 | the mask reads only the first eight digits |
| DateInput.IsoOfPrefix | frontend/src/components/ui/date-input.tsx:22-27 | the conversion to ISO reads only the first eight digits |
| DateInput.IsoOfMask | frontend/src/components/ui/date-input.tsx:19-42 | converting the masked text gives the same date as converting the raw text |
| DateInput.ParsedAboveDigits | frontend/src/components/ui/date-input.tsx:30 | on a digit string the bound check compares the decimal value |
| DateInput.IsoOfDigitsWellFormed | frontend/src/components/ui/date-input.tsx:19-33 | a non-empty conversion is a well-formed ISO date with day ≤ 31 and month ≤ 12; with eight digits it is refused exactly when the day exceeds 31 or the month 12, so 00 passes |
| DateInput.DisplayRoundTrip | frontend/src/components/ui/date-input.tsx:12-33 | the display of a stored date converts back to it exactly when its day is ≤ 31 and its month ≤ 12, and otherwise to '' |
| DateInput.IsoDateParts | frontend/src/components/ui/date-input.tsx:14 | a well-formed ISO date is its year, month and day joined by '-' |
| DateInput.RoundTripOfTokens | frontend/src/components/ui/date-input.tsx:12-33 | the round trip on a date given by its digit fields returns it or '' by the day and month bounds |
| DateInput.IsoOfTokens | frontend/src/components/ui/date-input.tsx:22-32 | the ISO date read from day, month and year digits is 'YYYY-MM-DD' when the bounds hold and '' otherwise |
| DateInput.HandleChangeEmits | frontend/src/components/ui/date-input.tsx:60-94 | only '' or a well-formed ISO date is ever emitted, and a pasted ISO date is emitted unchanged; outside a pasted ISO date '' is emitted exactly when the field is emptied of digits; the display never exceeds ten characters |
| DateInput.TypingDisplayEmitsDate | frontend/src/components/ui/date-input.tsx:64-94 | typing the display form of a valid date shows it unchanged and emits that date |
| DateInput.HandleBlurIdempotent | frontend/src/components/ui/date-input.tsx:100-109 | normalising on blur twice is normalising once |
| DateTimeInput.DatePartOf | frontend/src/components/ui/datetime-input.tsx:14-17 | the first ten characters of a well-formed value are a well-formed ISO date with the same fields |
| DateTimeInput.WsSplit | frontend/src/components/ui/datetime-input.tsx:33 | splitting on white space always yields at least one piece |
| DateTimeInput.TimeMatch | frontend/src/components/ui/datetime-input.tsx:53 | a match has one or two hour digits and at most two minute digits |
| DateTimeInput.TimeField | frontend/src/components/ui/datetime-input.tsx:55-60 | a padded and clamped field has two digits and never exceeds its limit |
| DateTimeInput.TimeOf | frontend/src/components/ui/datetime-input.tsx:55-62 | the time is 'HH:mm' with hours ≤ 23 and minutes ≤ 59 |
| DateTimeInput.WsSplitTwo | frontend/src/components/ui/datetime-input.tsx:33 | two space-free tokens separated by one space split into exactly those tokens |
| DateTimeInput.CleanDateTime | frontend/src/components/ui/datetime-input.tsx:32 | cleaning 'DD/MM/YYYY t' drops the slashes and keeps the time token |
| DateTimeInput.TimeMatchOfHhMm | frontend/src/components/ui/datetime-input.tsx:53 | the match on 'HH:mm' yields exactly the hours and the minutes |
| DateTimeInput.DisplayOfIsoDateTime | frontend/src/components/ui/datetime-input.tsx:12-25 | a well-formed value is shown as 'DD/MM/YYYY HH:mm' |
| DateTimeInput.IsoDateTimeParts | frontend/src/components/ui/datetime-input.tsx:14-21 | a well-formed value is its date fields joined by '-', a 'T', and its time fields joined by ':' |
| DateTimeInput.DisplayOfSplits | frontend/src/components/ui/datetime-input.tsx:12-25 | the display is the date parts in reverse order and the time parts, as the splits give them |
| DateTimeInput.DisplayOfDateOnly | frontend/src/components/ui/datetime-input.tsx:20-24 | a value without 'T' is shown as its date alone |
| DateTimeInput.TokensOfShown | frontend/src/components/ui/datetime-input.tsx:32-33 | the shown text splits into the date digits and the time token |
| DateTimeInput.DateOfTokens | frontend/src/components/ui/datetime-input.tsx:38-48 | day, month and year digits in range give the date 'YYYY-MM-DD' |
| DateTimeInput.TimeFieldInRange | frontend/src/components/ui/datetime-input.tsx:55-60 | a two-digit field within its limit is kept |
| DateTimeInput.TimeOfInRange | frontend/src/components/ui/datetime-input.tsx:53-62 | hours and minutes in range are kept as typed |
| DateTimeInput.ConvertTokens | frontend/src/components/ui/datetime-input.tsx:37-62 | the tokens of 'DD/MM/YYYY HH:mm' convert to 'YYYY-MM-DDTHH:mm' |
| DateTimeInput.ConvertShown | frontend/src/components/ui/datetime-input.tsx:28-67 | converting 'DD/MM/YYYY HH:mm' with values in range gives 'YYYY-MM-DDTHH:mm' |
| DateTimeInput.DisplayRoundTrip | frontend/src/components/ui/datetime-input.tsx:12-67 | the display of a well-formed value converts back to it when day, month, hours and minutes are within 31, 12, 23 and 59 |
| DateTimeInput.FormatToIsoWellFormed | frontend/src/components/ui/datetime-input.tsx:28-67 | any text converts to '', a date, or a date and time with hours ≤ 23 and minutes ≤ 59 |
| DateTimeInput.IsoWithTime | frontend/src/components/ui/datetime-input.tsx:62 | a date, a 'T' and 'HH:mm' form a well-formed value with those hours and minutes |
| DateTimeInput.MaskKeepsDisplay | frontend/src/components/ui/datetime-input.tsx:70-103 | the corrected mask leaves the display of a well-formed value unchanged |
| DateTimeInput.MaskedDisplayRoundTrip | frontend/src/components/ui/datetime-input.tsx:12-103 | with the corrected mask, typing the display of a valid value converts back to the value |
| DateTimeInput.MaskAsWrittenDoublesColon | frontend/src/components/ui/datetime-input.tsx:89-99 | the mask as written turns a typed 'DD/MM/YYYY HH:mm' into 'DD/MM/YYYY HH::m' |
| DateTimeInput.MaskOfDateTokens | frontend/src/components/ui/datetime-input.tsx:78-86 | the date digits of 'DD/MM/YYYY' are masked back to 'DD/MM/YYYY' |
| DateTimeInput.MaskTimeKeepsColon | frontend/src/components/ui/datetime-input.tsx:91-96 | the time mask as written keeps the typed colon and inserts a second one |
| DateTimeInput.DoubledColonLosesMinutes | frontend/src/components/ui/datetime-input.tsx:50-62 | converting 'DD/MM/YYYY HH::m' loses the minutes, which become '00' |
| DateTimeInput.MatchOfDoubledColon | frontend/src/components/ui/datetime-input.tsx:53 | on 'HH::m' the match takes the hours and stops at the second colon |
| DateTimeInput.TimeOfNoMinutes | frontend/src/components/ui/datetime-input.tsx:56 | hours in range with no minutes give 'HH:00' |
| DateRangePicker.ExtractTimeWithoutT | frontend/src/components/ui/date-range-picker.tsx:57-64 | without a 'T' the time is 00:00 |
| DateRangePicker.ExtractTimeNaN | frontend/src/components/ui/date-range-picker.tsx:62-63 | a time field that is not a number reads as 0 and the other field is kept |
| DateRangePicker.SplitIsoDate | frontend/src/components/ui/date-range-picker.tsx:37-43 | the text of a real date splits on '-' into the year and the padded month and day |
| DateRangePicker.NumbersOfIsoDate | frontend/src/components/ui/date-range-picker.tsx:52 | Number reads the three fields of a formatted date back |
| DateRangePicker.ParseFormatted | frontend/src/components/ui/date-range-picker.tsx:37-54 | parsing a formatted date from year 100 on gives the same day back |
| DateRangePicker.ParseOfCivil | frontend/src/components/ui/date-range-picker.tsx:47-54 | parsing the text of a valid date from year 100 on gives its day |
| DateRangePicker.ParseOfFields | frontend/src/components/ui/date-range-picker.tsx:47-54 | parsing reads the date fields through Number into new Date(year, month − 1, day) |
| DateRangePicker.SplitClockColon | frontend/src/components/ui/date-range-picker.tsx:41-43 | a clock with non-negative fields splits on ':' into its two padded fields |
| DateRangePicker.NumberOfPad2 | frontend/src/components/ui/date-range-picker.tsx:62 | Number reads a padded field back |
| DateRangePicker.ExtractOfClock | frontend/src/components/ui/date-range-picker.tsx:57-64 | extracting the time of a date text, 'T' and a clock gives that clock back |
| DateRangePicker.ExtractFormatted | frontend/src/components/ui/date-range-picker.tsx:37-64 | extracting the time of a formatted value gives the same non-negative time back |
| DateRangePicker.ParseDateFields | frontend/src/components/ui/date-range-picker.tsx:47-54 | parsing 'YYYY-MM-DDT…' with a valid month and a year outside 0..99 gives that calendar day |
| DateRangePicker.ExtractClockFields | frontend/src/components/ui/date-range-picker.tsx:57-64 | extracting '…THH:mm' gives the hours and minutes as numbers |
| DateRangePicker.IsoFields | frontend/src/components/ui/date-range-picker.tsx:47-64 | on a real 'YYYY-MM-DDTHH:mm' from year 1000 on, parsing gives its day and extracting gives its time |
| DateRangePicker.IsoRoundTrip | frontend/src/components/ui/date-range-picker.tsx:37-64 | formatting the parsed date with the extracted time gives a real 'YYYY-MM-DDTHH:mm' from year 1000 on back unchanged |
| DateRangePicker.DisplayOfFormatted | frontend/src/components/ui/date-range-picker.tsx:21-44 | a formatted value is displayed as 'DD/MM/YYYY HH:mm' |
| DateRangePicker.FirstWeekday | frontend/src/components/ui/date-range-picker.tsx:183-186 | the weekday of the first is between 0 and 6 |
| DateRangePicker.MonthLength | frontend/src/components/ui/date-range-picker.tsx:184-185 | a month has at least one day |
| DateRangePicker.GetDaysInMonth | frontend/src/components/ui/date-range-picker.tsx:180-201 | the grid has one empty cell per weekday before the first, then the days 1 … length of the month in order |
| DateRangePicker.GridIsTheMonth | frontend/src/components/ui/date-range-picker.tsx:180-201 | outside years 0..99 the grid starts on the weekday of the real first of the month and holds as many days as the month |
| DateRangePicker.StrictlyBetweenSymmetric | frontend/src/components/ui/date-range-picker.tsx:244-248 | the highlight does not depend on which end was picked first |
| DateRangePicker.EndsNotInRange | frontend/src/components/ui/date-range-picker.tsx:231-249 | the two ends themselves are never highlighted |
| DateRangePicker.InRangeBothEnds | frontend/src/components/ui/date-range-picker.tsx:231-249 | with both ends chosen a cell is highlighted exactly when it lies strictly between them |
| DateRangePicker.HandleConfirm | frontend/src/components/ui/date-range-picker.tsx:133-166 | nothing is emitted unless both days are chosen; a start after the end swaps the days together with their times |
| DateRangePicker.ConfirmedRangeOrdered | frontend/src/components/ui/date-range-picker.tsx:133-166 | what is confirmed reads back, from year 100 on, as a start day no later than the end day, each with its own time |
| DateRangePicker.TypeHours | frontend/src/components/ui/date-range-picker.tsx:485-519 | typed hours are clamped to 0..23: a value in range is kept, one above gives 23, one below gives 0, NaN gives 0; the minutes are kept |
| DateRangePicker.TypeMinutes | frontend/src/components/ui/date-range-picker.tsx:498-532 | typed minutes are clamped to 0..59: a value in range is kept, one above gives 59, one below gives 0, NaN gives 0; the hours are kept |
| DateRangePicker.TypedTimeRoundTrip | frontend/src/components/ui/date-range-picker.tsx:37-64 | a typed time is formatted as 'HH:mm' and extracted back unchanged |
| DateTimePicker.ParseEmpty | frontend/src/components/ui/datetime-picker.tsx:46-47 | the empty value parses to no date |
| DateTimePicker.ParseDateOnly | frontend/src/components/ui/datetime-picker.tsx:52-61 | a date without a time is read at 00:00 |
| DateTimePicker.MinuteParts | frontend/src/components/ui/datetime-picker.tsx:36-43 | a minute of a day at a real time of day falls on that day with that hour and minute |
| DateTimePicker.MinuteSplit | frontend/src/components/ui/datetime-picker.tsx:36-43 | every instant is a day, an hour 0..23 and a minute 0..59 |
| DateTimePicker.ParseOfParts | frontend/src/components/ui/datetime-picker.tsx:46-62 | parsing gives the date's day plus its hours and minutes, a missing or non-numeric field read as 0 |
| DateTimePicker.FormatOfParts | frontend/src/components/ui/datetime-picker.tsx:36-43 | an instant given as a day and a real time of day prints as that date and 'HH:mm' |
| DateTimePicker.FormatAt | frontend/src/components/ui/datetime-picker.tsx:36-43 | an instant prints as its day, its hour of the day and its minute of the hour |
| DateTimePicker.IsoRoundTrip | frontend/src/components/ui/datetime-picker.tsx:36-62 | a real 'YYYY-MM-DDTHH:mm' from year 1000 on, with HH ≤ 23 and mm ≤ 59, comes back unchanged from formatting its parse |
| DateTimePicker.RoundTripOfParts | frontend/src/components/ui/datetime-picker.tsx:36-62 | formatting the parse gives the date and the time read by the field helpers |
| DateTimePicker.ParseFormatted | frontend/src/components/ui/datetime-picker.tsx:36-62 | formatting an instant from year 100 on and parsing it again gives the same instant |
| DateTimePicker.HourButtonsCycle | frontend/src/components/ui/datetime-picker.tsx:425-449 | on a real hour the hour buttons count modulo 24 and undo each other |
| DateTimePicker.MinuteButtonsCycle | frontend/src/components/ui/datetime-picker.tsx:468-492 | on a real minute the minute buttons count modulo 60 and undo each other |
| DateTimePicker.HourUpTimesMod | frontend/src/components/ui/datetime-picker.tsx:447-449 | k presses of '+' on a real hour land on (h + k) mod 24 |
| DateTimePicker.TimeState.constructor | frontend/src/components/ui/datetime-picker.tsx:67-80 | the picker starts on the parsed date and its time, or on no date at 18:00 |
| DateTimePicker.TimeState.HourMinus | frontend/src/components/ui/datetime-picker.tsx:425-427 | the hour goes back one modulo 24, nothing else changes and the time stays real |
| DateTimePicker.TimeState.HourPlus | frontend/src/components/ui/datetime-picker.tsx:447-449 | the hour goes on one modulo 24, nothing else changes and the time stays real |
| DateTimePicker.TimeState.MinuteMinus | frontend/src/components/ui/datetime-picker.tsx:468-470 | the minute goes back one modulo 60, nothing else changes and the time stays real |
| DateTimePicker.TimeState.MinutePlus | frontend/src/components/ui/datetime-picker.tsx:490-492 | the minute goes on one modulo 60, nothing else changes and the time stays real |
| DateTimePicker.TimeState.TypeHours | frontend/src/components/ui/datetime-picker.tsx:437-440 | typed hours are clamped to 0..23: a value in range is kept, one above gives 23, one below gives 0, NaN gives 0; nothing else changes |
| DateTimePicker.TimeState.TypeMinutes | frontend/src/components/ui/datetime-picker.tsx:480-483 | typed minutes are clamped to 0..59: a value in range is kept, one above gives 59, one below gives 0, NaN gives 0; nothing else changes |
| DateTimePicker.TimeState.SelectDay | frontend/src/components/ui/datetime-picker.tsx:244-248 | clicking a day selects it and keeps the chosen time |
| DateTimePicker.TimeState.Confirm | frontend/src/components/ui/datetime-picker.tsx:108-138 | the selected date, or today when none is selected, at the chosen time, as 'YYYY-MM-DDTHH:mm' |
| DateTimePicker.ConfirmedValue | frontend/src/components/ui/datetime-picker.tsx:126-128 | confirming keeps the day and prints exactly the chosen time |
| DateTimePicker.Clear | frontend/src/components/ui/datetime-picker.tsx:140-149 | clearing emits a value that reads back as no date |
| DateTimePicker.InRangeMeaning | frontend/src/components/ui/datetime-picker.tsx:203-242 | a cell is highlighted exactly when it is after today and before the end: the selected day when it is today or later, else a suggested day after today |
| DateTimePicker.SelectedTodayHidesRange | frontend/src/components/ui/datetime-picker.tsx:219-241 | selecting today hides the suggested range: nothing is highlighted |
| Common.ClampParsed | frontend/src/components/ui/datetime-picker.tsx:439 | the typed number clamped between lo and hi: the result is in range; a parsed value in range is kept, one above gives hi, one below gives lo; NaN gives 0 |
| SprintDetails.FindItem | frontend/src/pages/SprintDetails.tsx:189-199 | the first row with the id, or none exactly when no row has it |
| SprintDetails.FindItemFirst | frontend/src/pages/SprintDetails.tsx:189-199 | the row found is the first one carrying the id |
| SprintDetails.Without | frontend/src/pages/SprintDetails.tsx:172-176 | removing an id leaves exactly the other ids, keeps a set a set and changes nothing when it was absent |
| SprintDetails.SelectedHoursWithout | frontend/src/pages/SprintDetails.tsx:137-158 | leaving out one selected id takes exactly its hours off the sum |
| SprintDetails.ToggleTwice | frontend/src/pages/SprintDetails.tsx:160-181 | toggling an item twice gives back the same selection, and the same order when it was not selected |
| SprintDetails.ToggleChangesTotal | frontend/src/pages/SprintDetails.tsx:137-181 | toggling a non-development item adds or removes exactly its hours from the total |
| SprintDetails.FindAfterSetHours | frontend/src/pages/SprintDetails.tsx:188-199 | after an hours edit the id's row carries the new hours and every other id finds what it found before |
| SprintDetails.SameShapeDevelopment | frontend/src/pages/SprintDetails.tsx:121-129 | estimate lists with the same ids and flags agree on which ids are development levels |
| SprintDetails.CustomIdNotDevelopment | frontend/src/pages/SprintDetails.tsx:121-227 | a 'custom_' id never names a development level of the defaults |
| SprintDetails.WithoutId | frontend/src/pages/SprintDetails.tsx:229-234 | removing by id keeps exactly the rows with other ids |
| SprintDetails.WithoutIdOfFresh | frontend/src/pages/SprintDetails.tsx:213-234 | removing an appended row under a fresh id gives back the list before |
| SprintDetails.FindAfterAppend | frontend/src/pages/SprintDetails.tsx:213-227 | an appended row is found only for an id no earlier row had |
| SprintDetails.SelectedHoursCongruent | frontend/src/pages/SprintDetails.tsx:137-158 | ids whose hours agree in two configurations give the same sum |
| SprintDetails.EditTextReadsBack | frontend/src/pages/SprintDetails.tsx:183-199 | the text put in the edit field reads back through parseInt as the same positive hours |
| SprintDetails.InvariantAfterSetHours | frontend/src/pages/SprintDetails.tsx:188-206 | an accepted hours edit keeps the estimator's invariant |
| SprintDetails.InvariantAfterAddCustom | frontend/src/pages/SprintDetails.tsx:213-227 | selecting a fresh custom id keeps the estimator's invariant |
| SprintDetails.SelectNonDevelopment | frontend/src/pages/SprintDetails.tsx:160-181 | selecting an id that is no development level keeps the invariant |
| SprintDetails.InvariantAfterToggle | frontend/src/pages/SprintDetails.tsx:160-181 | toggling keeps the invariant whether the id is a development level or not |
| SprintDetails.InvariantAfterRemove | frontend/src/pages/SprintDetails.tsx:229-234 | removing an id from the selection keeps the invariant |
| SprintDetails.TimeEstimator.constructor | frontend/src/pages/SprintDetails.tsx:119-134 | the estimator starts on the default estimates with nothing selected or being edited |
| SprintDetails.TimeEstimator.CalculateTotalTime | frontend/src/pages/SprintDetails.tsx:137-158 | the total is the selected items' hours plus the chosen development level's |
| SprintDetails.TimeEstimator.ToggleTimeItem | frontend/src/pages/SprintDetails.tsx:160-181 | a development level becomes the chosen one or is unchosen; any other id enters or leaves the selection; the invariant holds |
| SprintDetails.TimeEstimator.StartEditingTime | frontend/src/pages/SprintDetails.tsx:183-186 | the editor opens on the id showing its current hours |
| SprintDetails.TimeEstimator.SaveEditedTime | frontend/src/pages/SprintDetails.tsx:188-206 | a positive parsed hours text sets that id's hours in the estimates, else in the custom rows, and closes the editor; any other text changes nothing |
| SprintDetails.TimeEstimator.CancelEditingTime | frontend/src/pages/SprintDetails.tsx:208-211 | the editor closes and nothing else changes |
| SprintDetails.TimeEstimator.AddCustomTime | frontend/src/pages/SprintDetails.tsx:213-227 | with a label and positive hours a row 'custom_<now>' is appended and selected and the fields cleared; otherwise nothing changes |
| SprintDetails.TimeEstimator.RemoveCustomTime | frontend/src/pages/SprintDetails.tsx:229-234 | the rows with that id leave the custom list and the id leaves the selection |
| SprintDetails.EditSetsHours | frontend/src/pages/SprintDetails.tsx:188-206 | an accepted edit sets the hours that id contributes to the total |
| SprintDetails.AddCustomRaisesTotal | frontend/src/pages/SprintDetails.tsx:213-227 | adding a custom row under a fresh id raises the selected total by its hours |
| SprintDetails.RemoveUndoesAdd | frontend/src/pages/SprintDetails.tsx:213-234 | removing a custom row undoes adding it, for the list and the selection |
| SprintDetails.MissingRequired | frontend/src/pages/SprintDetails.tsx:1129-1140 | each label is missing exactly when its field is empty, in the check's order |
| SprintDetails.ValidateCardRequiredData | frontend/src/pages/SprintDetails.tsx:1129-1146 | valid exactly when the developer and both dates are filled in, exactly when nothing is missing |
| SprintDetails.RequiresRequiredData | frontend/src/pages/SprintDetails.tsx:1149-1151 | every stage but 'a_desenvolver' and 'inviabilizado' asks for the data |
| SprintDetails.UnknownStageNeedsNoData | frontend/src/pages/SprintDetails.tsx:1149-1151 | a stage outside the six statuses never asks for the data |
| SprintDetails.NthWeekdayMeaning | frontend/src/pages/SprintDetails.tsx:1167-1186 | the k-th weekday counted from a day is a weekday, not before it, with exactly k weekdays up to it |
| SprintDetails.CalculateSuggestedEndDate | frontend/src/pages/SprintDetails.tsx:1154-1198 | '' for no hours, else the suggested day at 18:00 as 'YYYY-MM-DDTHH:mm' |
| SprintDetails.SuggestedDayMeaning | frontend/src/pages/SprintDetails.tsx:1154-1198 | the suggested day is a weekday after today with exactly max(1, ceil(hours/8)) weekdays from tomorrow up to it |
| SprintDetails.SuggestedTextReadsBack | frontend/src/pages/SprintDetails.tsx:1154-1198 | the date-time picker reads the suggested text back as the suggested day |
| SprintDetails.ChangesOver | frontend/src/pages/SprintDetails.tsx:1045-1121 | an entry for each listed field that differs and none for the others |
| SprintDetails.DetectCardChanges | frontend/src/pages/SprintDetails.tsx:1045-1121 | one rendered 'Campo: "antes" → "depois"' line per change, in order |
| SprintDetails.CardChangesMeaning | frontend/src/pages/SprintDetails.tsx:1045-1121 | one entry per differing field in the form's order, none for equal fields, and none for status on a move |
| SprintDetails.ChangesOverMeaning | frontend/src/pages/SprintDetails.tsx:1045-1121 | the same facts for any complete ascending list of fields |
| SprintDetails.NoChangesIffSame | frontend/src/pages/SprintDetails.tsx:1045-1121 | the list is empty exactly when no field differs |
| SprintRollover.FindProject | frontend/src/pages/SprintDetails.tsx:416 | a project found has the id and is one of the sprint's |
| SprintRollover.FindProjectMeaning | frontend/src/pages/SprintDetails.tsx:416-417 | the search fails exactly when no project has the id |
| SprintRollover.FindProjectFirst | frontend/src/pages/SprintDetails.tsx:416 | of several projects with the id the first is found |
| SprintRollover.PendingIsCopyOrMove | frontend/src/pages/SprintDetails.tsx:322-330 | a card is pending exactly when it is to be copied or to be moved, never both |
| SprintRollover.NextSprintIndex | frontend/src/pages/SprintDetails.tsx:339-346 | the next sprint starts after the finished one ends, earliest such start, first listed among ties; none exactly when no sprint starts later |
| SprintRollover.NextMonday | frontend/src/pages/SprintDetails.tsx:378-381 | the first Monday after today |
| SprintRollover.NextWeekStartIsSunday | frontend/src/pages/SprintDetails.tsx:381 | the start as written is the Sunday after today, never the Monday the comment names |
| SprintRollover.NewSprint | frontend/src/pages/SprintDetails.tsx:353-398 | with a card in development the new sprint runs 15 days from today, else 14 days from the Sunday after today that the page computes, named 'Sprint <n> - <month year>' |
| SprintRollover.Keys | frontend/src/pages/SprintDetails.tsx:405-412 | the map's keys are distinct and are exactly the projects with a card to copy |
| SprintRollover.GroupOf | frontend/src/pages/SprintDetails.tsx:405-412 | a project's group holds exactly the cards to copy of that project |
| SprintRollover.CardCalls | frontend/src/pages/SprintDetails.tsx:427-444 | one create request per card, in order, into the project copy |
| SprintRollover.MoveCalls | frontend/src/pages/SprintDetails.tsx:449-464 | one move request per project with a card to move and none to copy |
| SprintRollover.MovePendingCardsToNextSprint | frontend/src/pages/SprintDetails.tsx:315-475 | the requests issued are exactly the rollover plan, whose new sprint starts on the Sunday the page computes |
| SprintRollover.GroupByProject | frontend/src/pages/SprintDetails.tsx:405-412 | the keys in insertion order and each key's group, built card by card |
| SprintRollover.CopyBlock | frontend/src/pages/SprintDetails.tsx:415-445 | the requests for one project: its copy into the destination, then its cards |
| SprintRollover.CopyCards | frontend/src/pages/SprintDetails.tsx:427-444 | a copy of each card of the group, in order, into the project copy |
| SprintRollover.NoPendingNoRequests | frontend/src/pages/SprintDetails.tsx:335-337 | with no pending card no request is issued |
| SprintRollover.CopiesGrouped | frontend/src/pages/SprintDetails.tsx:405-417 | the cards to copy belong to found projects under distinct keys |
| SprintRollover.PlanParts | frontend/src/pages/SprintDetails.tsx:339-465 | the plan is the sprint creation if any, then the copies, then the moves |
| SprintRollover.RolloverCopiesCards | frontend/src/pages/SprintDetails.tsx:401-446 | every card to copy is copied exactly once, with its status, and nothing else is copied |
| SprintRollover.RolloverLinksCards | frontend/src/pages/SprintDetails.tsx:415-445 | each card copy goes into the copy of its own project made by an earlier request |
| SprintRollover.RolloverMovesProjects | frontend/src/pages/SprintDetails.tsx:449-464 | the projects moved are exactly those with a card waiting on a dependency and none to copy |
| SprintRollover.RolloverTargets | frontend/src/pages/SprintDetails.tsx:348-461 | every project copy and move goes to the destination sprint |
| SprintRollover.RolloverCreatesSprint | frontend/src/pages/SprintDetails.tsx:348-399 | a sprint is created, by the first request, exactly when none is planned after the finished one |
| SprintRollover.MixedProjectLeavesBlockedCard | frontend/src/pages/SprintDetails.tsx:449-455 | a card waiting on a dependency in a project that also has a card to copy is neither copied nor moved |
| ProjectDetails.FindStage | frontend/src/pages/ProjectDetails.tsx:766 | a stage found has the id; none exactly when no column has it |
| ProjectDetails.ParseStage | frontend/src/pages/ProjectDetails.tsx:933-942 | reading keeps the text, and gives another text exactly when it is no column id |
| ProjectDetails.ParseStageOfColumn | frontend/src/pages/ProjectDetails.tsx:69-76 | every column's id reads back as that column |
| ProjectDetails.FindStageOfColumn | frontend/src/pages/ProjectDetails.tsx:765-768 | each column's id finds the column with its label |
| ProjectDetails.StageLabelMatchesTable | frontend/src/pages/ProjectDetails.tsx:765-768 | a column's label from the stage table, and any other id echoed as its own label |
| ProjectDetails.LabelsHaveNoArrow | frontend/src/pages/ProjectDetails.tsx:69-76 | no column label contains the arrow |
| ProjectDetails.ArrowJoinInjective | frontend/src/pages/ProjectDetails.tsx:771-777 | two arrow-free labels are read back from the message that joins them |
| ProjectDetails.LabelOfStatusInjective | frontend/src/pages/ProjectDetails.tsx:69-76 | distinct columns have distinct labels |
| ProjectDetails.MovementMessageNamesStages | frontend/src/pages/ProjectDetails.tsx:771-777 | two moves give the same message exactly when they go between the same columns, whoever moves the card |
| ProjectDetails.PendenciaTextParts | frontend/src/pages/ProjectDetails.tsx:1172-1177 | the pendência log starts with the move into 'Parado por Pendências' and ends with the reason verbatim |
| ProjectDetails.FindCard | frontend/src/pages/ProjectDetails.tsx:921 | a card found has the id and is on the board |
| ProjectDetails.FindCardNone | frontend/src/pages/ProjectDetails.tsx:921-922 | no card is found exactly when no card has the id |
| ProjectDetails.ApplyUpdate | frontend/src/pages/ProjectDetails.tsx:1031-1035 | the card with the id is updated and every other card kept, position by position |
| ProjectDetails.ApplyUpdateMeaning | frontend/src/pages/ProjectDetails.tsx:1031-1063 | a move keeps ids and order, gives the moved card its status, leaves the others alone and is idempotent |
| ProjectDetails.NeedsDataAtAgrees | frontend/src/pages/ProjectDetails.tsx:800-802 | the board asks for data at the same stages as the sprint page |
| ProjectDetails.ResolveTarget | frontend/src/pages/ProjectDetails.tsx:930-942 | a column id is the target itself; otherwise the status of the card dropped onto, or none |
| ProjectDetails.DropNoOp | frontend/src/pages/ProjectDetails.tsx:906-945 | a drop does nothing exactly when the sprint is finished, nothing is under the pointer, the card is unknown or closed, the target is unknown or the card already is there |
| ProjectDetails.DropBranches | frontend/src/pages/ProjectDetails.tsx:948-1081 | a move to 'parado_pendencias' asks a reason; stages that demand data stop at the missing list exactly when something is missing; a complete card to 'finalizado' goes to the conclusion dialog; other stages move at once |
| ProjectDetails.DropFillsNoDate | frontend/src/pages/ProjectDetails.tsx:976-1025 | the date-filling branches never fire: a move or conclusion writes the new status only |
| ProjectDetails.DropKeepsClosedCards | frontend/src/pages/ProjectDetails.tsx:911-927 | a finished sprint's board and a closed card never move |
| ProjectDetails.EditFormFor | frontend/src/pages/ProjectDetails.tsx:1209-1223 | the edit form takes the waiting move's status and fills a missing start date for 'em_desenvolvimento' with now |
| ProjectDetails.DropFormMissesNewMove | frontend/src/pages/ProjectDetails.tsx:1001-1012 | as written, a drop onto 'em_desenvolvimento' stopped for data opens the form at the card's stored status with its start date as stored, unless an earlier move of that card is still waiting |
| ProjectDetails.MissingDataOpensFilledForm | frontend/src/pages/ProjectDetails.tsx:1209-1223 | as intended, with the drop's own move waiting, the form opens at 'em_desenvolvimento' with a missing start date set to now |
| ProjectDetails.Board.constructor | frontend/src/pages/ProjectDetails.tsx:1031 | the board starts on the loaded cards with no dialog waiting |
| ProjectDetails.Board.DragEnd | frontend/src/pages/ProjectDetails.tsx:906-1081 | a move updates the board and sends the update and the 'movimentado' log; every other outcome only records what its dialog waits for; a drop stopped for data opens the edit form from the waiting move held before the drop |
| ProjectDetails.Board.PendenciaConfirm | frontend/src/pages/ProjectDetails.tsx:1150-1191 | the waiting card moves to the waiting status and the update and the 'pendencia' log with the reason are sent; without a known waiting card nothing happens |
| ProjectDetails.Board.ConclusaoConfirm | frontend/src/pages/ProjectDetails.tsx:1083-1148 | the waiting update and the 'movimentado' log into 'finalizado' are sent and the board shows the card concluded |
| ProjectDetails.RestSkip | frontend/src/pages/ProjectDetails.tsx:738-742 | a weekend day is stepped over |
| ProjectDetails.RestStep | frontend/src/pages/ProjectDetails.tsx:744-746 | a weekday spends 8 hours and goes on to the next day |
| ProjectDetails.RestLast | frontend/src/pages/ProjectDetails.tsx:744-749 | the last block stops on the day, or on the next day when it is a full 8 hours |
| ProjectDetails.RestStart | frontend/src/pages/ProjectDetails.tsx:715-750 | the loop from the first day ends on the as-written suggested day |
| ProjectDetails.CalculateSuggestedEndDate | frontend/src/pages/ProjectDetails.tsx:715-757 | '' for no hours, else the day the loop stops on at 18:00 as 'YYYY-MM-DDTHH:mm' |
| ProjectDetails.SuggestionAgainstSprintPage | frontend/src/pages/ProjectDetails.tsx:715-757 | the same day as the sprint page when the hours are not a multiple of 8, one day later when they are |
| ProjectDetails.EightHoursFromThursday | frontend/src/pages/ProjectDetails.tsx:738-750 | 8 hours estimated on a Thursday are suggested for a Saturday, where the sprint page says Friday |
| ProjectDetails.HandleCardDelete | frontend/src/pages/ProjectDetails.tsx:1533-1549 | an inviabilizado card is refused to roles other than admin and supervisor; otherwise the confirmation opens |
| ProjectDetails.CardDeleteAgreesWithButton | frontend/src/pages/ProjectDetails.tsx:1533-1549 | on an open sprint a card offered for deletion is never refused, and one refused is not offered |
| ProjectDetails.HandleDeleteProject | frontend/src/pages/ProjectDetails.tsx:1569-1588 | admin or supervisor only, then only a project whose status lowercases to 'inviabilizado' |
| ProjectDetails.ProjectDeletionNeverOffered | frontend/src/pages/ProjectDetails.tsx:1579-1585 | no status a project holds lowercases to 'inviabilizado', so deletion is never offered |
| MyTasks.NextStatusCycle | frontend/src/pages/MyTasks.tsx:60-72 | clicking cycles through all four statuses: four clicks return to the start, fewer never do, and every status is reached from 'pending' |
| MyTasks.NextStatusOfTextMeaning | frontend/src/pages/MyTasks.tsx:60-72 | a status's text steps like the status; any other text steps to 'pending' |
| MyTasks.CalculateDaysRemaining | frontend/src/pages/MyTasks.tsx:38-45 | no date gives 0 days, not overdue; otherwise the whole days to the date rounded up, overdue exactly when negative |
| MyTasks.OverdueMeansADayLate | frontend/src/pages/MyTasks.tsx:38-45 | a date is overdue exactly when it lies a whole day or more before now |
| MyTasks.NewTodoRequest | frontend/src/pages/MyTasks.tsx:733-743 | an added TODO is for that card with that text, not original, pending, ordered after the card's current TODOs |
| MyTasks.AddedTodoKeepsNumbering | frontend/src/pages/MyTasks.tsx:733-743 | adding keeps a card's TODOs numbered 0, 1, 2, … in order, and the new row is deletable exactly when the card is editable |
| MyTasks.TabsPartition | frontend/src/pages/MyTasks.tsx:631-633 | each card shows in the 'concluidas' tab exactly when delivered, and then in no other tab |
| MyTasks.UserAndSearchMembers | frontend/src/pages/MyTasks.tsx:805-815 | the user and search filters keep exactly the cards of that user whose lowercased name holds the search |
| MyTasks.LateViewMembers | frontend/src/pages/MyTasks.tsx:827-833 | the 'atrasados' view holds exactly the late undelivered cards that pass the other filters |
| MyTasks.ByEtapaSubset | frontend/src/pages/MyTasks.tsx:819-843 | the stage filter only drops cards |
| MyTasks.FilteredIsSubset | frontend/src/pages/MyTasks.tsx:802-843 | the filters never show more than they are given |
| MyTasks.SortKeyAgrees | frontend/src/pages/MyTasks.tsx:847-857 | the sort key orders two cards as the comparator does |
| MyTasks.SortedCardsMeaning | frontend/src/pages/MyTasks.tsx:846-858 | the sort keeps the cards, orders every pair as the comparator asks and puts undated cards last in both directions |
| MyTasks.GroupCards | frontend/src/pages/MyTasks.tsx:861-894 | one list per key, holding the cards of that key in order, and only keys some card has |
| MyTasks.GroupsPartition | frontend/src/pages/MyTasks.tsx:861-894 | every card lands in exactly one group, the one of its key |
| MyTasks.GetFilteredAndGroupedCards | frontend/src/pages/MyTasks.tsx:802-897 | filter, sort when asked, then group; no groups for an unknown grouping |
| Priorities.IsCompletedAgrees | frontend/src/pages/Priorities.tsx:51-53 | on a stored status the page's 'completed' agrees with the server's is_concluido |
| Priorities.WeekMatchesServer | frontend/src/pages/Priorities.tsx:257-336 | the page's week starts on a Monday at most six days back, equals the server's week start, and ends on that week's Friday |
| Priorities.CardIds | frontend/src/pages/Priorities.tsx:346 | the card ids of the rows as text, one per row in order |
| Priorities.StrIds | frontend/src/pages/Priorities.tsx:343 | the ids as text, one per id in order |
| Priorities.CandidateStatuses | frontend/src/pages/Priorities.tsx:248-252 | a card with a stored status is offered exactly when it is the user's and still open |
| Priorities.FindCard | frontend/src/pages/Priorities.tsx:267 | a card found has that id as text; none exactly when no card has it |
| Priorities.PreselectMeaning | frontend/src/pages/Priorities.tsx:265-273 | a preselected card is a candidate named by an existing priority, and every priority naming a candidate brings it in |
| Priorities.DefinePriorityMeaning | frontend/src/pages/Priorities.tsx:240-273 | the candidates are exactly the user's cards neither delivered nor dropped; preselected cards are candidates with a priority this week |
| Priorities.WithoutMembers | frontend/src/pages/Priorities.tsx:390-392 | deleting by keys keeps exactly the rows with other keys |
| Priorities.WithoutTwice | frontend/src/pages/Priorities.tsx:390-392 | deleting some keys and then others is deleting them all |
| Priorities.WithoutNothing | frontend/src/pages/Priorities.tsx:390-392 | deleting no key changes nothing |
| Priorities.NewRows | frontend/src/pages/Priorities.tsx:361-368 | one row per card id, with consecutive keys, for the user and the week |
| Priorities.KeyDistinct | frontend/src/pages/Priorities.tsx:361-368 | two rows of the table have different keys |
| Priorities.NotDeleted | frontend/src/pages/Priorities.tsx:355-392 | a row not among those deleted keeps its place |
| Priorities.KeptAll | frontend/src/pages/Priorities.tsx:361-387 | with no create rejected every card id is created |
| Priorities.SaveReconciles | frontend/src/pages/Priorities.tsx:338-392 | a save that went through leaves the user exactly the selected cards for the week and keeps other users' and weeks' rows |
| Priorities.SaveKeepsOthers | frontend/src/pages/Priorities.tsx:338-392 | rows of other users or weeks survive a save |
| Priorities.SavedCardsSelected | frontend/src/pages/Priorities.tsx:352-392 | after a save every priority of the user's week names a selected card |
| Priorities.SelectedCardsSaved | frontend/src/pages/Priorities.tsx:352-392 | after a save every selected card has a priority this week |
| Priorities.KeptPriority | frontend/src/pages/Priorities.tsx:355 | a selected card that had a priority keeps it |
| Priorities.CreatedPriority | frontend/src/pages/Priorities.tsx:352-368 | a selected card without a priority gets the one created for it |
| Priorities.StrictFindsLess | frontend/src/pages/Priorities.tsx:297-340 | comparing ids with === finds a subset of what String comparison finds, the same when both ids have one kind |
| Priorities.EmptySelectionStrictCompare | frontend/src/pages/Priorities.tsx:288-303 | the empty selection leaves a priority whose user id is stored as a number while the user's id is text, though the save counts it as the user's |
| Priorities.ClearEmpties | frontend/src/pages/Priorities.tsx:288-303 | when ids have one kind, clearing removes all the user's week priorities and nothing else |
| Priorities.PriorityStore.constructor | frontend/src/pages/Priorities.tsx:296 | the table starts empty with key 0 next |
| Priorities.PriorityStore.Create | frontend/src/pages/Priorities.tsx:363-368 | a row is appended under the next key |
| Priorities.PriorityStore.Delete | frontend/src/pages/Priorities.tsx:301-391 | the row with that key is removed |
| Priorities.DeleteAll | frontend/src/pages/Priorities.tsx:300-392 | deleting each listed row in turn removes exactly their keys |
| Priorities.CreateAll | frontend/src/pages/Priorities.tsx:361-387 | each card id not rejected becomes a row, in order; the result reports whether any create failed for a reason other than a duplicate |
| Priorities.HandleSavePriority | frontend/src/pages/Priorities.tsx:284-410 | an empty selection clears the user's week; otherwise the missing priorities are created and, when none failed, the dropped ones deleted; success exactly when no create failed |
| Metrics.JoinTrimmed | frontend/src/pages/Metrics.tsx:37 | two optional words joined by a space and trimmed are the words present, one space apart |
| Metrics.ShortDisplayNameMeaning | frontend/src/pages/Metrics.tsx:30-39 | the first given name and first surname; without a surname the first two given names; a single name alone; no name gives the username |
| Metrics.ClosedCards | frontend/src/pages/Metrics.tsx:209-212 | exactly the delivered cards with a delivery date |
| Metrics.DayOfSprintMeaning | frontend/src/pages/Metrics.tsx:214-222 | a delivery gets a sprint day exactly when it falls on one of the sprint's days, numbered from 1 |
| Metrics.OnTimeMeansByLastDay | frontend/src/pages/Metrics.tsx:555-557 | on time means delivered on or before the sprint's last day |
| Metrics.Tally | frontend/src/pages/Metrics.tsx:232-236 | the map's keys in insertion order are the distinct user keys, each with the number of its cards |
| Metrics.EntriesSumToCards | frontend/src/pages/Metrics.tsx:232-236 | the counts of the distinct keys add up to the cards counted |
| Metrics.PerUserList | frontend/src/pages/Metrics.tsx:225-231 | the sprint and type filters keep exactly the matching cards; an empty filter keeps everything |
| Metrics.ZeroEntries | frontend/src/pages/Metrics.tsx:247-255 | one zero row for each user with no delivery, and no other row |
| Metrics.FindEntry | frontend/src/pages/Metrics.tsx:257 | the entry found has that id; none exactly when no entry has it |
| Metrics.CardsPerUser | frontend/src/pages/Metrics.tsx:224-262 | the chart's rows, computed with its counting loop |
| Metrics.EntrySumSorted | frontend/src/pages/Metrics.tsx:260 | sorting the rows keeps their total |
| Metrics.PerUserSum | frontend/src/pages/Metrics.tsx:224-262 | the chart's counts add up to the cards it was given |
| Metrics.KeyRow | frontend/src/pages/Metrics.tsx:237-246 | a key found on the cards appears with its count |
| Metrics.ZeroRow | frontend/src/pages/Metrics.tsx:247-255 | a user without deliveries appears with 0 |
| Metrics.RowMeaning | frontend/src/pages/Metrics.tsx:237-255 | every row carries its user's count and names a user or a key found on the cards |
| Metrics.PerUserRows | frontend/src/pages/Metrics.tsx:224-262 | every user and every key found on the cards has a row with its count, and every row is one of those |
| Metrics.PerUserShape | frontend/src/pages/Metrics.tsx:257-261 | the sorted rows, then the unassigned entry when a card has no assignee |
| Metrics.PerUserOrder | frontend/src/pages/Metrics.tsx:258-261 | rows come by count descending and the unassigned entry is only the last one |
| Metrics.LeaderboardList | frontend/src/pages/Metrics.tsx:418-438 | exactly the assigned delivered cards in the scope |
| Metrics.LeaderboardData | frontend/src/pages/Metrics.tsx:417-494 | the ranking, computed with its counting loop |
| Metrics.LeaderboardSize | frontend/src/pages/Metrics.tsx:444-493 | one row per selected id in the users scope; otherwise at most 5 or 3, or one per user for 'all' |
| Metrics.LeaderboardTop | frontend/src/pages/Metrics.tsx:492-493 | the ranking comes by count descending and every row cut off counts no more than any row kept |
| Metrics.LeaderboardCounts | frontend/src/pages/Metrics.tsx:439-491 | every row counts its id's assigned cards in the scope; outside the users scope and 'all' every row names an assignee |
| Metrics.OnTimeList | frontend/src/pages/Metrics.tsx:508-536 | exactly the assigned delivered cards in the scope, and nothing for the users scope without a selection |
| Metrics.TallyOnTime | frontend/src/pages/Metrics.tsx:550-562 | the per-user deliveries and on-time deliveries of the counted cards, keys in insertion order |
| Metrics.FindUser | frontend/src/pages/Metrics.tsx:572 | the user found has the id; none exactly when no user has it |
| Metrics.OnTimeTableData | frontend/src/pages/Metrics.tsx:549-594 | the on-time table, computed with its counting loop |
| Metrics.StatBound | frontend/src/pages/Metrics.tsx:558-561 | a user's on-time count never exceeds the deliveries |
| Metrics.StatPresent | frontend/src/pages/Metrics.tsx:553-561 | an assignee of a counted card has at least one delivery |
| Metrics.PctMeaning | frontend/src/pages/Metrics.tsx:580 | the percentage is 100·onTime/total rounded half up, between 0 and 100 |
| Metrics.OnTimeRowMeaning | frontend/src/pages/Metrics.tsx:567-582 | every row carries its user's tally, late = total − onTime ≥ 0, and the rounded percentage |
| Metrics.UsersOrderHead | frontend/src/pages/Metrics.tsx:586-593 | in the users scope delivered rows come before undelivered ones, then by percentage descending |
| Metrics.OnTimeOutsideUsers | frontend/src/pages/Metrics.tsx:564-585 | outside the users scope the rows are exactly the assignees with a counted delivery, by percentage descending |
| Metrics.OnTimeUsersScope | frontend/src/pages/Metrics.tsx:563-593 | in the users scope one row per selected id, undelivered rows last, the others by percentage descending |
| Metrics.FirstRows | frontend/src/pages/Metrics.tsx:601-608 | the first row of each user id, in table order, with no repeats |
| Metrics.OnTimeFiltered | frontend/src/pages/Metrics.tsx:596-599 | no filter or an empty one shows every row; otherwise exactly the rows of the selected ids |
| Metrics.ToggleCheck | frontend/src/pages/Metrics.tsx:394-400 | checking keeps 'everyone' and adds the id once to a selection |
| Metrics.ToggleUncheck | frontend/src/pages/Metrics.tsx:401-405 | unchecking from 'everyone' selects every listed user but that one; from a selection it removes the id, and removing the last returns to 'everyone' |
| Metrics.UncheckHides | frontend/src/pages/Metrics.tsx:394-407 | after unchecking a user, while a selection remains, the filtered table shows no row of that user and only rows of the table |
| Metrics.UncheckOnlyUserShowsAll | frontend/src/pages/Metrics.tsx:394-407 | unchecking the table's only user from 'everyone' leaves an empty selection, which shows every row again |
| GeekDayPage.IndexOf | frontend/src/pages/GeekDay.tsx:202-203 | the first position of the role in the order, or -1 exactly when it is absent |
| GeekDayPage.GetSectors | frontend/src/pages/GeekDay.tsx:207-213 | one sector per wheel user, in order, labelled with the display name |
| GeekDayPage.SectorsSize | frontend/src/pages/GeekDay.tsx:188-214 | the wheel is empty exactly when fewer than two users remain, otherwise has min(available, 24) sectors, all of weight 10 |
| GeekDayPage.WheelUsersMeaning | frontend/src/pages/GeekDay.tsx:189-205 | the wheel shows exactly the first 24 users not yet drawn, rearranged so roles come supervisor, gerente, desenvolvedor, dados, processos, admin |
| GeekDayPage.RoleRankMeaning | frontend/src/pages/GeekDay.tsx:200-204 | an empty role ranks as desenvolvedor, an unknown role ranks first, a known role at its place |
| GeekDayPage.GatesOrdered | frontend/src/pages/GeekDay.tsx:58-60 | whoever may drag may spin; reset goes with spin; a gerente spins but does not drag; nobody logged out does anything |
| GeekDayPage.FindWheelUser | frontend/src/pages/GeekDay.tsx:328-338 | the user found has the id; none exactly when no user has it |
| GeekDayPage.DropMeaning | frontend/src/pages/GeekDay.tsx:315-390 | without a drop zone, the role or a drag in progress nothing happens; a mark is for an undrawn user and an unmark for a drawn one |
| GeekDayPage.DropOnCard | frontend/src/pages/GeekDay.tsx:335-380 | dropping onto a card moves the user into that card's list, or does nothing for the same list |
| GeekDayPage.ApplyMove | frontend/src/pages/GeekDay.tsx:392-396 | the moved user's flag becomes the target's and nobody else changes |
| GeekDayPage.MoveUpdatesWheel | frontend/src/pages/GeekDay.tsx:392-396 | after a mark the user is drawn and leaves the wheel; nobody else changes |
| GeekDayPage.FirstTwo | frontend/src/pages/GeekDay.tsx:586-590 | the first two characters, or the whole of a shorter string |
| GeekDayPage.InitialsOfDisplayName | frontend/src/pages/GeekDay.tsx:552-591 | initials begin with the display name's first letter upper-cased: both names' first letters, else the first two letters of the name shown |
| NotificationContext.Ids | frontend/src/context/NotificationContext.tsx:79 | the ids of the list, one per notification in order |
| NotificationContext.FindNotice | frontend/src/context/NotificationContext.tsx:156-185 | the notification found has the id; none exactly when the id is not listed |
| NotificationContext.NotificationState.constructor | frontend/src/context/NotificationContext.tsx:26 | the list is empty and both counters are 0 |
| NotificationContext.NotificationState.HandleNotification | frontend/src/context/NotificationContext.tsx:73-115 | a known id is replaced in place, a new one goes first; an unread notification raises 'unread', and 'mine' unless it is general |
| NotificationContext.NotificationState.MarkAsRead | frontend/src/context/NotificationContext.tsx:148-167 | on success the id is marked read, 'unread' drops (floored at 0) and 'mine' drops for a listed non-general notification; a failure changes nothing |
| NotificationContext.NotificationState.MarkAllAsRead | frontend/src/context/NotificationContext.tsx:170-179 | on success every notification is read and both counters are 0; a failure changes nothing |
| NotificationContext.NotificationState.DeleteNotification | frontend/src/context/NotificationContext.tsx:182-199 | on success the id leaves the list and a listed unread notification lowers the counters; a failure changes nothing |
| NotificationContext.PushedDistinct | frontend/src/context/NotificationContext.tsx:77-87 | a pushed notification is listed afterwards, a known id replaced in place, a new one first, the others kept and ids unique |
| NotificationContext.MarkedReadIds | frontend/src/context/NotificationContext.tsx:151-153 | marking one read keeps the ids, sets 'lida' on that id only and changes nothing else |
| NotificationContext.AllReadMeaning | frontend/src/context/NotificationContext.tsx:173 | marking all keeps the ids and leaves nothing unread |
| NotificationContext.RemovedMeaning | frontend/src/context/NotificationContext.tsx:186 | deleting removes every notification with that id, keeps the rest, and keeps ids unique |
| NotificationContext.RemovedDistinct | frontend/src/context/NotificationContext.tsx:186 | deleting keeps ids unique |
| NotificationContext.DuplicatePushCountsTwice | frontend/src/context/NotificationContext.tsx:77-104 | a duplicate push of an unread notification leaves the list alone but raises 'unread' again |
| NotificationContext.MarkTwiceDecrementsTwice | frontend/src/context/NotificationContext.tsx:148-163 | marking the same notification twice lowers the counters twice, never below 0 |
| NotificationContext.DeleteCountsMeaning | frontend/src/context/NotificationContext.tsx:184-195 | deleting a read or unlisted notification keeps the counters; a listed unread one lowers 'unread', and 'mine' unless general |
| RegisterPage.SubmitCheck | frontend/src/pages/Register.tsx:97-123 | when the form is sent, the payload carries the trimmed first name and the username, e-mail and password as typed |
| RegisterPage.SubmitOrder | frontend/src/pages/Register.tsx:97-113 | the request is sent exactly when the e-mail (trimmed, lower-cased) ends in "@bwa.global", the password matches the password rule and equals the confirmation; otherwise the message is the domain, password or mismatch message of the first failing check |
| RegisterPage.FirstFailureStops | frontend/src/pages/Register.tsx:100-108 | a failing domain check (or a failing password check) blocks the request whatever the later fields hold |
| RegisterPage.EmailSpaces | frontend/src/pages/Register.tsx:100-101 | spaces around the e-mail do not change the domain check, and the payload keeps the e-mail as typed |
| RegisterPage.AllSet | frontend/src/pages/Register.tsx:22-28 | the alphabet of the free characters has 62 characters |
| RegisterPage.Pick | frontend/src/pages/Register.tsx:26 | a draw picks a character of the given set |
| RegisterPage.FreePicks | frontend/src/pages/Register.tsx:29 | the loop adds eight characters, each from the whole alphabet |
| RegisterPage.Drafted | frontend/src/pages/Register.tsx:27-29 | the password before shuffling has twelve characters |
| RegisterPage.DraftedKinds | frontend/src/pages/Register.tsx:27 | the draft starts with an upper-case letter, a lower-case letter, a digit and a special character |
| RegisterPage.AlphabetPlain | frontend/src/pages/Register.tsx:22-25 | every alphabet character is printable ASCII, so the password pattern's `.` accepts it |
| RegisterPage.DraftedFromAlphabet | frontend/src/pages/Register.tsx:22-29 | every drafted character belongs to the alphabet |
| RegisterPage.GenerateRandomPassword | frontend/src/pages/Register.tsx:21-31 | the generated password is a permutation of the draft, has twelve characters, satisfies the password rule, uses only alphabet characters and holds a digit |
| RegisterPage.Shuffle | frontend/src/pages/Register.tsx:30 | shuffling rearranges the characters without adding or losing any |
| RegisterPage.DraftedPermutationOk | frontend/src/pages/Register.tsx:19-30 | every arrangement of the draft passes the password rule and keeps a digit, whatever order the shuffle gives |
| RegisterPage.GeneratedPasswordSubmits | frontend/src/pages/Register.tsx:97-113 | with a generated password in both fields, a valid e-mail is enough for the request to be sent |
| RegisterPage.Abbreviations | frontend/src/pages/Register.tsx:57 | one abbreviation per later name token |
| RegisterPage.AbbreviatedMeaning | frontend/src/pages/Register.tsx:50-58 | the preview name is empty for an empty name, the name itself for one word, and otherwise the first word followed by the initial and a dot of every later word, three characters per later word |
| RegisterPage.SingleWord | frontend/src/pages/Register.tsx:55-56 | a trimmed name with at most one word is that word |
| RegisterPage.WordsJoin | frontend/src/pages/Register.tsx:55-57 | joining words with single spaces and splitting on white space gives the words back |
| RegisterPage.GetInitials | frontend/src/pages/Register.tsx:59-67 | the avatar initials have one or two characters |
| RegisterPage.InitialsOfPreview | frontend/src/pages/Register.tsx:50-67 | with a first name, the initials are the upper-cased first letters of the preview's first two words, or its first two letters for one word; with no first name and no username they are "U" and the preview is empty |
| RegisterPage.FirstFieldMessageMeaning | frontend/src/pages/Register.tsx:130-137 | the error shown is the first message among first name, username, e-mail, password and confirmation, in that order; there is none only if no field carries one |
| RegisterPage.ErrorMessageMeaning | frontend/src/pages/Register.tsx:124-139 | without a response body, or with no field message, the generic message is shown; otherwise the message of the first field that carries one |
| RegisterPage.EmptyMessages | frontend/src/pages/Register.tsx:128-137 | an empty string in the first field is shown as the (empty) message and hides later fields, while an empty list falls through to the generic message |
| Calendar.CivilFromDaysInverse | frontend/src/components/ui/date-range-picker.tsx:184-186 | every day number a `Date` holds names a real calendar date, and converting that date back gives the same day number |
| Calendar.DaysFromCivilInverse | frontend/src/components/ui/date-range-picker.tsx:184-186 | a real calendar date converts to a day number that converts back to the same date |
| Calendar.LastDayOfMonth | frontend/src/components/ui/date-range-picker.tsx:184 | `new Date(year, month + 1, 0)` is the last day of the month |
| Calendar.JsMakeDayOfCivil | frontend/src/components/ui/date-range-picker.tsx:183 | for a year outside 0..99, `new Date(y, m - 1, d)` is the day of the date (y, m, d) |
| Calendar.WeekdayNumberings | backend/apps/projects/views.py:446 | Python's `weekday()` (Monday = 0) and JavaScript's `getDay()` (Sunday = 0) differ by one step |
| Calendar.JsDayNext | frontend/src/lib/dateUtils.ts:86-89 | one day later is one weekday later |
| Calendar.StartOfDay | frontend/src/components/ui/date-range-picker.tsx:142-143 | `setHours(0, 0, 0, 0)` gives midnight of the same day, at or before the instant |
| Sorting.SortBy | frontend/src/pages/Metrics.tsx:492 | sorting keeps exactly the elements, with their multiplicities |
| Sorting.SortByStable | frontend/src/pages/Metrics.tsx:492 | the sort is stable: the elements of each key come out in their input order, as `Array.prototype.sort` keeps them, which decides the ties at a top-N cut |
| Sorting.InsertKeyRun | frontend/src/pages/Metrics.tsx:492 | an inserted element goes ahead of every element with its key |
| Sorting.SortBySorted | frontend/src/pages/GeekDay.tsx:201-207 | the sorted sequence is ordered by the key |
| Sorting.SortByMembers | frontend/src/pages/GeekDay.tsx:201-207 | an element is in the sorted sequence exactly when it is in the input |

## Left out

- I/O and transport: HTTP requests, the WebSocket and Channels transport (`group_send` is a push that may fail), the client's reconnect timers, and `fetch` calls. A client handler is modelled from the server's answer on, with `ok` standing for a request that succeeded.
- The ORM, `transaction.atomic` and Celery scheduling: tables are sequences held by objects, and an atomic block is one method whose error paths change nothing. When the periodic jobs run is not modelled.
- Logging and `print` output of jobs and migrations. The migration's two totals are returned as results instead.
- Clocks and time zones: "now" and "today" are integer parameters. UTC and local-time quirks of `Date` and `toISOString` are not modelled, and a day has no daylight-saving shifts.
- Randomness: `random.choice` and `Math.random` are choices the caller supplies.
- Floating point: the image-crop canvas, the team canvas coordinates and the Metrics heatmap intensity (`heatmapData`, Metrics.tsx:264) are not modelled. The on-time percentage is computed on exact fractions with rounding half up, as `Math.round` does on the exact value.
- The Metrics project statistics (`projectStats`, Metrics.tsx:616) and the year lists for the filters are not modelled. They only feed charts.
- Locale formatting: `toLocaleDateString`, `toLocaleString` and `strftime` texts are opaque parameters. An example is `monthYear` in `SprintRollover`.
- UI rendering, dialogs, dnd-kit and the DOM: where a drop handler falls back on a DOM lookup, the outcome of that lookup is the flag `activeElementFound`.
- `localeCompare` is modelled as code-point order, with no locale collation.
- JavaScript object key order: `MyTasks` groups cards into a map, so the order of the groups is not modelled.
- `Common.JsNumber`: `Number(s)` is modelled only for white-space-trimmed decimal integers with an optional sign. The empty string gives 0 and every other text is NaN. Exponents, hexadecimal and fractions are not modelled.
- `RegisterPage.GenerateRandomPassword`: the sort by a random comparator is modelled as a Fisher-Yates shuffle. Only the permutation it yields is stated, which is all the password check depends on.
- `DateTimePicker.TimeState.constructor` requires a value that is a valid date. The source would put NaN into its hours for an Invalid Date.
- `ProjectDetails`: the finishing confirmation is modelled for the drop path. The edit-form path that merges `dataToSend` (ProjectDetails.tsx:1086-1140) is not modelled, and neither are the reloads after a request.
- `Priorities`: deleting a single priority from its dialog (`confirmDeletePriority`, Priorities.tsx:487-515) is not modelled. It only deletes the row the supervisor clicked.
- `WeeklyPriorityViewSet.priorities_view` (views.py:582-660), `perform_update`/`perform_destroy` and the notification `mark_as_read`/`unread_count` views are not modelled. They read rows and return them as they are.
- Exception types: the branches of views.py:443, :462 and :472 raise names the module does not import. They are modelled as a generic error, without the exception type.
- `DateRangePicker`: `handleClear` only empties both values and closes the popover, so it is not modelled separately.
- The password hashing and `authenticate` of Django are parameters of `Accounts`, and the token table is a parameter of `Consumers`.
- The frontend's copy of the checklist templates (constants/cardTodos.ts) is the same data as the backend's. The model keeps one copy, in `Serializers`.
- ReplicateShape: the replicas are made in table order. `sprint.projects.all()` follows Project's `Meta.ordering = ['-created_at']` (backend/apps/projects/models.py:93), newest first. So the order of the new projects, and with it their keys, is not the source's. Which projects and cards are created is the same.
- CopyPending: the copies are made in table order. The card queryset follows Card's `Meta.ordering = ['projeto', 'prioridade', 'created_at']` (backend/apps/projects/models.py:232). So the order of the new cards is not the source's. Which cards are created is the same.
- UsersStatus: the accounts are listed in the order the caller passes. The query follows User's `Meta.ordering = ['username']` (backend/apps/accounts/models.py:33) under the database's collation, and that order is not modelled. It decides which 24 users the wheel shows first.
- Tasks.CheckCardDeadlines: the cards are scanned in table order. The queryset of `check_card_deadlines` (backend/apps/projects/tasks.py:22-28) follows Card's `Meta.ordering = ['projeto', 'prioridade', 'created_at']` (backend/apps/projects/models.py:232). So the order of the alert rows and of their pushes is not the source's. Which rows each card gets is the same (`Tasks.ScanAlertsAbout`).
- Rollover.Store.FinalizarSprintsPorData: due sprints with the same `data_fim` are swept in table order, since `Sorting.SortBy` is stable. `order_by('data_fim')` (backend/apps/projects/tasks.py:208) leaves that tie to the database. When every sprint starts no later than it ends, only the order and keys of the replicas differ: a due sprint is not in progress, and otherwise a destination starts after the source ends (backend/apps/projects/services.py:14-26), so neither tied sprint is the other's destination. Neither `Sprint` nor `SprintSerializer` (backend/apps/projects/serializers.py:19-36) enforces that. A sprint whose `data_inicio` is after its `data_fim` can be the destination of a tied sprint and, with no `exclude(pk=…)` in step 2, its own. Then the tie order changes how many replicas are made, not only their order. For example, with today = 10, A runs 1..5 and has a project with a pending card, and B runs 6..5 with no projects. Sweeping A then B copies the project into B and then copies that copy again, so B ends with two replicas. Sweeping B then A leaves B with one.
- EarliestWhere: among sprints with the same `data_inicio`, `order_by('data_inicio').first()` leaves the choice to the database. The model takes the row stored first.
- Serializers.CreateCard: each checklist TODO it inserts (backend/apps/projects/serializers.py:415) fires `card_todo_updated` (backend/apps/projects/signals.py:827-872). `Signals.CardTodoUpdatedSignal` models that handler on its own, but `CreateCard` does not append its "Novo TODO Adicionado" notifications.
- Rollover.Store.FinalizarSprintReplicacao: the signals its creates fire are not modelled. These are `project_created` (backend/apps/projects/signals.py:703-717) for each replica project and the creation branch of `card_created_or_updated` (signals.py:71) for each copied card. The store holds no notification or log table, so `Finalizar`, `FinalizeDue` and `FinalizarSprintsPorData` leave them out too.
- `Signals.CustomTexts` and `Models.CustomItem`: the `complexidade_custom_items` JSON list is taken to hold well-formed `{label, hours}` objects with integer hours. The handlers' other cases (backend/apps/projects/signals.py:194-201 and :543-549) are not modelled: a non-dict item rendered with `str(item)`, a missing label giving 'Item personalizado', and hours that are not integers.
- `Common.UpperChar`, `Common.LowerChar`, `Common.Upper` and `Common.Lower`: JavaScript's `toUpperCase`/`toLowerCase` are modelled on the Basic Latin and Latin-1 letters only. Other scripts, and µ, ß (which upper-cases to "SS") and ÿ, are left unchanged. `Common.PyTitle` treats only ASCII letters as letters.
- `ProjectDetails.Board.DragEnd`: the edit form is built from the card on the board. `cardService.getById` is not modelled, so a server copy that differs is not covered.

## Findings

| source | as written | input that shows it | evidently intended | confidence | as-written member | corrected member |
|---|---|---|---|---|---|---|
| frontend/src/components/ui/datetime-input.tsx:89-99 | the mask inserts a ':' after the hour digits even when the user typed one, so the colon is doubled and one minute digit falls off | typing "01/02/2024 12:30" shows "01/02/2024 12::3", and converting that gives minutes "00" | keep a typed colon, so "12:30" stays "12:30" and converts back to the value | not executed | DateTimeInput.MaskAsWrittenDoublesColon | DateTimeInput.MaskedDisplayRoundTrip |
| frontend/src/pages/ProjectDetails.tsx:738-750 | a full 8-hour day moves the date one day on, and when the hours run out exactly the loop ends there without skipping a weekend, so the suggestion can fall on a Saturday or Sunday | 8 hours estimated on a Thursday give a Saturday | a weekday after today, with max(1, ceil(h/8)) weekdays up to it, as SprintDetails.tsx:1154-1198 computes | not executed | ProjectDetails.EightHoursFromThursday | SprintDetails.SuggestedDayMeaning |
| frontend/src/pages/SprintDetails.tsx:381 | the new sprint starts at today + (7 - getDay()), which is the next Sunday | any day: on Wednesday 2025-03-05 the start is Sunday 2025-03-09 | the next Monday, as the line's own comment says | not executed | SprintRollover.NextWeekStartIsSunday | SprintRollover.NextMonday |
| backend/apps/accounts/serializers.py:33-53 | 'admin' is in none of the guarded role lists, so any requester may grant it | a desenvolvedor editing a desenvolvedor account sets role 'admin' and passes | only an administrator may grant the admin role, as the docstring's rule that only admins set supervisors implies | not executed | Accounts.DeveloperPromotesToAdmin | Accounts.ValidateRoleGuardedMeaning |
| frontend/src/pages/ProjectDetails.tsx:1005-1010 | a drop stopped for missing data sets the waiting move and opens the edit form in the same render, and the form reads the waiting move from that render (:1209), which is still the one held before the drop | an 'a_desenvolver' card with no start date dropped onto 'em_desenvolvimento', with no move waiting, opens the form at 'a_desenvolver' with an empty start date | the form opens at 'em_desenvolvimento' with the start date set to now, as the comment at :1208 says | not executed | ProjectDetails.DropFormMissesNewMove | ProjectDetails.MissingDataOpensFilledForm |
