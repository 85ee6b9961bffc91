# Call-centre CRM: server-side decision logic

This project models the server side of a small call-centre CRM (Nuxt, Drizzle ORM, SQLite/D1) and proves properties of the model. The CRM has three roles: Admin, Teamlead and Agent. Companies are imported from spreadsheets, assigned to agents and worked through tasks and activities. The model covers:

- the role predicates and the 401/403 gates of the admin endpoints;
- who may see which users and teams (`/api/users/assignable`, `/api/teams`, the Teamlead scope of the analysis);
- the per-agent statistics of `/api/admin/analyse`: role and team filters, paging, the `chunk` helper that keeps SQL parameter lists short, grouping by agent, status and activity tallies, the most recent assignment;
- the admin listings of users and import logs: parameter defaults, the filter conjunction, `LIMIT/OFFSET` paging, id dedup and display fallbacks;
- the spreadsheet import: row validation, revenue bands, the inserts of each row and the success/failure tally, plus the automatic first task, task creation and the import-log record;
- the customer listing projection;
- the development endpoint that undoes imports by a time window and cascades deletes;
- the tables with their primary keys, UNIQUE and NOT NULL columns and `onDelete` actions;
- the migration script's statement splitter;
- the status-to-colour mapping of the UI.

The database is a value: `Schema.Db` holds one sequence of rows per table, and handlers take it and return the new one. The session is an input, `Option<SessionUser>`. Timestamps are integers in milliseconds. Which insert fails, whether the server runs in production, and the current time are inputs too. JavaScript's semantics are modelled where the handlers depend on them, in module `Js`: truthiness, `||`, `parseInt`, `toString`, `trim`, `slice`, `Math.ceil`. So is SQLite's `LIKE`, in module `SqlLike`.

## Model

| member | source | states |
|---|---|---|
| Roles.ParseRole | server/utils/types.ts:49-56 | a text names a role exactly when it is one of "Admin", "Teamlead", "Agent", and then it names that role |
| Roles.GetUserRole | server/utils/types.ts:49-56 | a role is returned only for an object whose `role` field is a string naming one of the three roles; anything else gives undefined |
| Roles.HasRoleNeedsObject | server/utils/types.ts:26-27 | `hasRole` is false and `getUserRole` undefined for null, undefined, primitives and functions |
| Roles.GetUserRoleMatchesHasRole | server/utils/types.ts:26-29 | `getUserRole(u) == r` holds exactly when `hasRole(u, r)` |
| Roles.HasRoleFunctional | server/utils/types.ts:28 | a user has at most one role |
| Roles.IsAdminOrTeamleadExactly | server/utils/types.ts:34-43 | `isAdminOrTeamlead` holds iff the role is Admin or Teamlead; `isAdmin` implies it; an Agent never has it |
| Http.RequireSession | server/api/users/assignable.get.ts:8-16 | 401 exactly when there is no session, otherwise the session user |
| Http.RequireAdminOrTeamlead | server/api/admin/analyse/index.get.ts:14-33 | 401 without a session, 403 for any role other than Admin or Teamlead, otherwise the session user |
| StatusColor.GetStatusColor | app/utils/status.ts:2-11 | always one of four class strings: green iff "Hinzugefügt Am", yellow iff "In Bearbeitung", red iff "Nicht erreicht", gray for every other status |
| Teams.TeamNameOrder | server/api/teams/index.get.ts:27-33 | ordering teams by name is a total preorder |
| Teams.ListTeams | server/api/teams/index.get.ts:11-37 | 401 without a session; Admin gets every team, Teamlead exactly the teams they lead, both sorted by name; every other role gets `[]` |
| TeamScope.LedTeamIds | server/api/users/assignable.get.ts:36-37 | the ids are exactly those of the teams whose lead is the given user |
| TeamScope.MemberUserIds | server/api/users/assignable.get.ts:51-55 | the user ids are exactly those of memberships in the given teams |
| TeamScope.NoTeamsNoMembers | server/api/admin/analyse/index.get.ts:57-62 | no led team means no member ids |
| TeamScope.TeamleadScope | server/api/admin/analyse/index.get.ts:50-70 | the allowed ids are the members of the led teams plus the lead, with the lead appended only when absent; exactly `[lead]` when the lead leads no team |
| Assignable.UserNameOrder | server/api/users/assignable.get.ts:31-68 | ordering users by name is a total preorder |
| Assignable.SummariesByName | server/api/users/assignable.get.ts:23-32 | one `{id, name, role}` per user, sorted by name |
| Assignable.AssignableUsers | server/api/users/assignable.get.ts:11-76 | 401 without a session; Admin gets every user by name; a Teamlead without teams gets only themselves; a Teamlead with teams gets exactly the users who are self or members of a led team, each stored user once (as many entries as such users), by name; any other role gets only itself |
| Pagination.IntParamOr | server/api/admin/users/index.get.ts:35-36 | `parseInt(p) \|\| d`: the parsed number when it is a non-zero integer, otherwise the default; never 0 |
| Pagination.UndefinedIsNaN | server/api/admin/analyse/index.get.ts:39-40 | an absent parameter, read as the text "undefined", does not parse |
| Pagination.IntParamOfNumber | server/api/admin/import-log.get.ts:33-34 | a parameter written as a non-zero number reads back as that number; "0" falls back to the default |
| Pagination.PagesOfNothing | server/api/admin/analyse/index.get.ts:125-126 | zero rows make zero pages |
| Pagination.OffsetNonNegative | server/api/admin/users/index.get.ts:37 | `(page-1)*limit` is never negative for a page of at least 1 |
| Pagination.LimitOffset | server/api/admin/users/index.get.ts:44-56 | SQLite `LIMIT/OFFSET`: a contiguous run of rows starting at the clamped offset, of at most `limit` rows (all remaining rows for a negative limit) |
| Pagination.LimitOffsetSpan | server/api/admin/import-log.get.ts:84-89 | for non-negative limit and offset the page is `rows[offset..offset+limit]`, clamped to the table |
| Pagination.PageSpan | server/api/admin/users/index.get.ts:37-56 | from page 1 with a positive limit, `LIMIT limit OFFSET (page-1)*limit` is the run of rows from `(page-1)*limit` to `page*limit`, both cut at the end of the rows |
| Pagination.PageNumbersRead | server/api/admin/users/index.get.ts:35 | the texts "1", "2", ... a client sends as `?page=` read back as the page numbers 1, 2, ... |
| Pagination.PagesCoverRows | server/api/admin/users/index.get.ts:37-56 | pages 1..ceil(total/limit), concatenated, are exactly the rows; no page exceeds the limit |
| Pagination.PageNonEmptyIffWithinPages | server/api/admin/users/index.get.ts:42-56 | a page holds rows iff its number is at most `ceil(total/limit)` |
| Pagination.PageBelowOne | server/api/admin/users/index.get.ts:35-37 | a page number below 1 gives the rows of page 1, because SQLite treats a negative offset as 0 |
| Pagination.SliceIsLimitOffset | server/api/admin/analyse/index.get.ts:127 | `slice(offset, offset+limit)` on the agent list and `LIMIT/OFFSET` cut the same page |
| Analyse.TeamFilter | server/api/admin/analyse/index.get.ts:44 | a team filter is in force exactly when `teamId` is given and parses to a non-zero number, and it is that number |
| Analyse.RoleFiltered | server/api/admin/analyse/index.get.ts:121-123 | the role filter applies only for "Admin", "Teamlead" or "Agent" and then keeps exactly that role; otherwise the list is unchanged |
| Analyse.UsersWithIds | server/api/admin/analyse/index.get.ts:88-108 | `inArray(users.id, ids)`: exactly the users whose id is listed |
| Analyse.UsersWithIdsIsFilter | server/api/admin/analyse/index.get.ts:99-108 | the id query keeps table order: it equals the filter `id in ids` |
| Analyse.SelectAgents | server/api/admin/analyse/index.get.ts:47-118 | the early exit happens exactly for an Admin's team filter on a team without members; otherwise Admin with a team gets that team's members, Teamlead gets self plus led-team members (the team filter ignored), everyone else all users |
| Analyse.PoolThenRole | server/api/admin/analyse/index.get.ts:72-123 | a pool cut by the role-specific filter and then role-filtered is the list of users visible to the caller |
| Analyse.VisibleAgents | server/api/admin/analyse/index.get.ts:47-123 | the agents listed are exactly the visible users in table order; the early exit happens exactly when none can be visible because the Admin's team has no members |
| Analyse.AgentStatistics | server/api/admin/analyse/index.get.ts:253-345 | per agent: assignment count, status breakdown (keys listed as a plain object lists them: integer-like statuses first by value, then the others in first-seen order; each status's count), "Nicht angefasst" and "Erledigt" counts, `offenCount = tasks - erledigt >= 0`, activity counts per type summing to at most the total, most recent assignment |
| Analyse.AgentEntry | server/api/admin/analyse/index.get.ts:253-345 | one agent's entry: its team name, assignment count and latest assignment, status counts, "Erledigt" and open counts and activity count, each taken from that agent's group of rows |
| Analyse.PageStatistics | server/api/admin/analyse/index.get.ts:253-345 | one entry per paged agent, in order, computed from that agent's groups (an agent without a group gets the empty group) |
| Analyse.BulkStatistics | server/api/admin/analyse/index.get.ts:130-250 | one entry per paged agent; each agent's assignment count is the number of assignments to it within the date range |
| Analyse.AnalysePage | server/api/admin/analyse/index.get.ts:37-355 | defaults page 1 and limit 50; `total` is the number of visible agents and `pages = ceil(total/limit)`; `data` follows the `[offset, offset+limit)` slice of the visible list; the empty-team exit gives `[]`, 0, 0 |
| Analyse.ListedAgentsVisible | server/api/admin/analyse/index.get.ts:125-128 | every agent on a page cut from the visible list is an existing user the caller may see |
| Analyse.Analyse | server/api/admin/analyse/index.get.ts:12-356 | 401/403 gate before anything else, then everything `AnalysePage` states, and at most `limit` entries |
| AnalyseBulk.ChunkSize | server/api/admin/analyse/index.get.ts:179-181 | `max(1, 50 - pageIds - 5)`: always at least 1, and the ids of a query stay within the 50-parameter budget whenever that is possible |
| AnalyseBulk.Chunk | server/api/admin/analyse/index.get.ts:182-187 | the chunks concatenate back to the input in order; each holds 1..size items and all but the last exactly size; a non-positive size is treated as 1; no input, no chunks |
| AnalyseBulk.Fetch | server/api/admin/analyse/index.get.ts:195-206 | one chunk's query: exactly the rows that pass the agent filter and whose company is in the chunk |
| AnalyseBulk.FetchNoIds | server/api/admin/analyse/index.get.ts:193-209 | a query over no company ids returns nothing |
| AnalyseBulk.FetchDisjointUnion | server/api/admin/analyse/index.get.ts:194-208 | querying two disjoint id lists returns, as a multiset, what one query over both returns |
| AnalyseBulk.FetchInChunks | server/api/admin/analyse/index.get.ts:194-208 | the concatenated chunk results hold exactly the rows of one query over all ids, with the same multiplicities when the ids are distinct (also lines 226-240) |
| AnalyseBulk.Group | server/api/admin/analyse/index.get.ts:165-173 | the rows of one key, in order; a row with a null key is in no group |
| AnalyseBulk.GroupByKey | server/api/admin/analyse/index.get.ts:165-173 | the map has a key exactly for each key with rows, and each value is that key's group (also lines 212-220, 244-250) |
| AnalyseBulk.GroupOfIsGroup | server/api/admin/analyse/index.get.ts:255-259 | `map.get(id) \|\| []` is that id's group, and never contains a row with a null key |
| AnalyseStats.Occurrences | server/api/admin/analyse/index.get.ts:262-270 | a count is positive exactly when the value occurs, and never exceeds the length |
| AnalyseStats.CountsOf | server/api/admin/analyse/index.get.ts:262-270 | the breakdown has a key exactly for each status that occurs |
| AnalyseStats.CountsOfSnoc | server/api/admin/analyse/index.get.ts:264-268 | one more task increments its status's count by one, starting at 0 |
| AnalyseStats.BreakdownSumsToTotal | server/api/admin/analyse/index.get.ts:262-270 | the counts of the status breakdown sum to the agent's task count (statuses named after Object.prototype members: see "Left out") |
| AnalyseStats.StatusTally | server/api/admin/analyse/index.get.ts:262-270 | the loop adds each status as a key once, in order of first appearance, and its counts and "Nicht angefasst" tally are the breakdown of the statuses |
| AnalyseStats.OwnKeyOrder | server/api/admin/analyse/index.get.ts:262-266 | the keys a `{}` record lists are a permutation of the keys added to it |
| AnalyseStats.OwnKeyOrderIndicesFirst | server/api/admin/analyse/index.get.ts:262-266 | array-index keys (such as a status "2") are listed before all other keys, in ascending numeric order |
| AnalyseStats.OwnKeyOrderKeepsOthers | server/api/admin/analyse/index.get.ts:262-266 | keys that are not array indices are listed in the order they were added |
| AnalyseStats.OwnKeyOrderWithoutIndices | server/api/admin/analyse/index.get.ts:262-266 | without integer-like statuses the record lists its keys in first-seen order |
| AnalyseStats.IndexKeyListedFirst | server/api/admin/analyse/index.get.ts:262-266 | statuses "Offen" then "2" are listed as "2", "Offen" |
| AnalyseStats.TypeTally | server/api/admin/analyse/index.get.ts:276-287 | CALL/EMAIL/MEETING/NOTE are each counted exactly, and the four counts sum to at most the total (types named after Object.prototype members: see "Left out") |
| AnalyseStats.Newest | server/api/admin/analyse/index.get.ts:318-320 | the reduce returns an assignment whose date is the latest |
| AnalyseStats.RecentAssignment | server/api/admin/analyse/index.get.ts:317-321 | null iff the agent has no assignments, otherwise the maximum `assignedAt` |
| AnalyseStats.TeamNameById | server/api/admin/analyse/index.get.ts:133-142 | a membership's team name, present exactly when the team exists |
| AnalyseStats.TeamNameOf | server/api/admin/analyse/index.get.ts:143 | no membership gives null; otherwise a non-empty name of a team the agent belongs to (also line 254) |
| AnalyseStats.LastMembershipWins | server/api/admin/analyse/index.get.ts:143 | `new Map(entries)` keeps the last membership of an agent, and an empty name becomes null |
| AdminUsers.NewestFirstOrder | server/api/admin/users/index.get.ts:53 | newest-first by `createdAt` is a total preorder |
| AdminUsers.Newest | server/api/admin/users/index.get.ts:53 | the users sorted newest first, a permutation of the table |
| AdminUsers.ListUsers | server/api/admin/users/index.get.ts:15-66 | 401/403 gate for Admin or Teamlead; page 1 and limit 50 by default; `total` is the table size, `pages = ceil(total/limit)`; at most `limit` users, newest first, all from the table; the page is `LIMIT limit OFFSET (page-1)*limit` over the newest-first list |
| AdminUsers.PagesListEveryUserOnce | server/api/admin/users/index.get.ts:37-56 | asking `ListUsers` for `?page=1` .. `?page=pages` in turn returns pages that concatenate to the newest-first list, so every user exactly once |
| AdminUsers.PagesReadInOrder | server/api/admin/users/index.get.ts:35-56 | any page texts that read as 1, 2, ... in turn make `ListUsers` return pages 1, 2, ... of the newest-first list |
| AdminUsers.PageBelowOneIsFirstPage | server/api/admin/users/index.get.ts:35-56 | a negative page number shows the first page |
| ImportLogList.RequireAdmin | server/api/admin/import-log.get.ts:11-27 | 401 without a session, 403 for every role but Admin |
| ImportLogList.TeamFilter | server/api/admin/import-log.get.ts:42-63 | the team filter is in force only for a given, non-zero team id |
| ImportLogList.TeamFilterOfNumber | server/api/admin/import-log.get.ts:42-63 | a numeric team id filters by that id; "0" filters nothing |
| ImportLogList.EndOfDay | server/api/admin/import-log.get.ts:51-55 | the last millisecond of the day: within the day and at 23:59:59.999 |
| ImportLogList.UntilEndOfDay | server/api/admin/import-log.get.ts:51-55 | `createdAt <= end of dateTo` iff the log's day is not after that day |
| ImportLogList.NoFilterRequestsNothing | server/api/admin/import-log.get.ts:46-72 | no where clause exactly when no filter parameter is given |
| ImportLogList.Wanted | server/api/admin/import-log.get.ts:48-68 | each filter parameter yields its one condition exactly when it is given |
| ImportLogList.AllPushed | server/api/admin/import-log.get.ts:46-68 | the pushed conditions are exactly the requested ones, without repeats, at most six |
| ImportLogList.WhereConditions | server/api/admin/import-log.get.ts:46-68 | the loop of `push`es builds exactly the requested conditions; empty exactly when nothing is filtered |
| ImportLogList.WhereIsMatches | server/api/admin/import-log.get.ts:70-72 | the conjunction of the conditions holds iff the log matches every given filter |
| ImportLogList.ProjectFilterIsSubstring | server/api/admin/import-log.get.ts:59-62 | the project filter is a case-insensitive substring test on the project name, with NULL read as "" |
| ImportLogList.Matching | server/api/admin/import-log.get.ts:74-81 | exactly the matching logs; all logs when nothing is filtered |
| ImportLogList.NewerFirstOrder | server/api/admin/import-log.get.ts:87 | `desc(createdAt)` with SQLite's storage-class order (TEXT, then instants newest first, then NULL) is a total preorder |
| ImportLogList.TextDateAboveEveryInstant | server/api/admin/import-log.get.ts:47-87 | a TEXT date passes `dateFrom`, fails `dateTo`, and is listed before every real or NULL date |
| ImportLogList.Ordered | server/api/admin/import-log.get.ts:84-88 | the matching logs, newest first, each as often as stored |
| ImportLogList.PageLogs | server/api/admin/import-log.get.ts:35-89 | at most `limit` logs, newest first, all matching the same clause as the count; the page is `LIMIT limit OFFSET (page-1)*limit` over the ordered matching logs |
| ImportLogList.PagesListEveryLogOnce | server/api/admin/import-log.get.ts:35-89 | asking for `?page=1` .. `?page=pages` with the same filters returns pages that concatenate to the ordered matching logs |
| ImportLogList.LogPagesReadInOrder | server/api/admin/import-log.get.ts:33-89 | any page texts that read as 1, 2, ... in turn, the filters and limit unchanged, give pages 1, 2, ... of the ordered matching logs |
| ImportLogList.TotalCountsMatches | server/api/admin/import-log.get.ts:74-95 | `total` counts the matching logs (all logs without filters), `pages = ceil(total/limit)`, at most `limit` entries |
| ImportLogList.UserIds | server/api/admin/import-log.get.ts:98-101 | distinct ids of the importers and target agents of the page, without falsy ids |
| ImportLogList.TeamIds | server/api/admin/import-log.get.ts:102 | distinct target team ids of the page, without falsy ids |
| ImportLogList.UserDirectory | server/api/admin/import-log.get.ts:104-120 | a key exactly for each requested id of an existing user, with that user's name and email |
| ImportLogList.TeamDirectory | server/api/admin/import-log.get.ts:105-134 | a key exactly for each requested id of an existing team, with its name |
| ImportLogList.UserDirectoryOfKey | server/api/admin/import-log.get.ts:117-119 | with unique ids, a requested user maps to its own name and email |
| ImportLogList.TeamDirectoryOfKey | server/api/admin/import-log.get.ts:131-133 | with unique ids, a requested team maps to its own name |
| ImportLogList.FillUsers | server/api/admin/import-log.get.ts:117-119 | the `forEach` of `set`s builds the user directory |
| ImportLogList.FillTeams | server/api/admin/import-log.get.ts:131-133 | the `forEach` of `set`s builds the team directory |
| ImportLogList.NameOr | server/api/admin/import-log.get.ts:157-161 | `map.get(id)?.name \|\| fallback`: the fallback exactly when the id is unknown or its name empty |
| ImportLogList.Entry | server/api/admin/import-log.get.ts:137-170 | display fallbacks: importer "Unbekannt" with email "", project "-", team and agent "-" when absent or unresolved; counts copied; a NULL or unreadable date becomes the current time |
| ImportLogList.Entries | server/api/admin/import-log.get.ts:137 | one entry per log, in order, with its id and counts |
| ImportLogList.ListImportLogs | server/api/admin/import-log.get.ts:6-178 | 401/403 gate for Admin, then the answer built from the matching, paged logs |
| ImportLogList.EntryNamesImporter | server/api/admin/import-log.get.ts:157-158 | a known importer is shown by name (or "Unbekannt" if the name is empty) and email |
| ImportLogList.EntryNamesTeam | server/api/admin/import-log.get.ts:160 | a known team with a name is shown by that name |
| ImportLogList.UnknownImporter | server/api/admin/import-log.get.ts:156-161 | an importer missing from the user table is shown as "Unbekannt" with email "" |
| SqlLike.Fold | server/api/admin/import-log.get.ts:61 | `LIKE` folds only ASCII letters |
| SqlLike.PercentMatchesAll | server/api/admin/import-log.get.ts:61 | `%` alone matches every text |
| SqlLike.LeadingPercent | server/api/admin/import-log.get.ts:61 | a leading `%` lets the rest match from any position |
| SqlLike.LiteralThenPercent | server/api/admin/import-log.get.ts:61 | a literal followed by `%` matches exactly the texts starting with it, up to case |
| SqlLike.ContainsLike | server/api/admin/import-log.get.ts:61 | `LIKE '%p%'` for a wildcard-free `p` is a case-insensitive substring test |
| SqlLike.UnderscoreMatchesAnyName | server/api/admin/import-log.get.ts:61 | a typed `_` is a wildcard: `%_%` keeps every non-empty name |
| ImportCustomers.BandIndex | server/api/customers/import.post.ts:34-42 | the band is the number of thresholds 50,000 … 50,000,000 the amount reaches; one of nine |
| ImportCustomers.BandIndexMonotone | server/api/customers/import.post.ts:34-42 | a larger amount never falls in a lower band |
| ImportCustomers.AmountText | server/api/customers/import.post.ts:31 | `replace(/[^0-9.]/g, '')` keeps exactly the digits and dots, and leaves such a text unchanged |
| ImportCustomers.WholeAmount | server/api/customers/import.post.ts:31-32 | `parseFloat` is NaN exactly when no digit starts the text (or follows a leading dot); otherwise its whole part is the leading digits |
| ImportCustomers.RevenueBand | server/api/customers/import.post.ts:26-43 | "" for falsy input; a string containing '-' unchanged; NaN gives the original text; otherwise the band label of the amount |
| ImportCustomers.RevenueBandOfNumber | server/api/customers/import.post.ts:31-42 | a plain positive number lands in its own band |
| ImportCustomers.GermanThousandsSeparatorsReadAsDecimal | server/api/customers/import.post.ts:31-34 | "1.500.000" reads as 1.5 and lands in "< 50.000 €" |
| ImportCustomers.Pick2 | server/api/customers/import.post.ts:62 | `a \|\| b`: the first truthy of the two, else the second |
| ImportCustomers.Pick3 | server/api/customers/import.post.ts:54 | `a \|\| b \|\| c`: Firma first, then name, then companyName |
| ImportCustomers.EmployeeCount | server/api/customers/import.post.ts:67 | `parseInt(Mitarbeiter \|\| employeeCount) \|\| 0` |
| ImportCustomers.NewCompany | server/api/customers/import.post.ts:57-74 | the company row: name by precedence, employee count, revenue band, city and phone by their column precedence |
| ImportCustomers.NewContact | server/api/customers/import.post.ts:81-95 | the contact row: always primary, a non-empty first name by precedence, email from the first truthy column |
| ImportCustomers.NewNote | server/api/customers/import.post.ts:98-102 | an empty hook and research result, no author |
| ImportCustomers.NewAssignment | server/api/customers/import.post.ts:105-110 | status "Neu Importiert", no team, no agent, no assigner |
| ImportCustomers.Completed | server/api/customers/import.post.ts:57-110 | how many of the four inserts ran: all four without a fault, none when the company insert fails |
| ImportCustomers.Inserts | server/api/customers/import.post.ts:57-110 | the rows a row inserts: a new company (fresh id) if its insert ran, a contact only with a contact person, a note, an assignment, each only when reached; the contact, note and assignment take the next AUTOINCREMENT id of their tables |
| ImportCustomers.Append | server/api/customers/import.post.ts:57-110 | inserting only appends rows |
| ImportCustomers.ImportOne | server/api/customers/import.post.ts:48-117 | a row without a company name changes nothing and reports "Missing company name for a row"; otherwise an error exactly when an insert fails; never sets an assigner |
| ImportCustomers.ImportOneAddsCustomer | server/api/customers/import.post.ts:57-112 | a row without a fault adds one company with its contact (if any), its note and its assignment |
| ImportCustomers.CompanyFailureInsertsNothing | server/api/customers/import.post.ts:57-74 | a failed company insert leaves the database unchanged (also lines 113-117) |
| ImportCustomers.NoteFailureLeavesCompanyWithoutNote | server/api/customers/import.post.ts:98-117 | a failed note insert keeps the company and contact already inserted (no transaction) |
| ImportCustomers.ImportNeverMerges | server/api/customers/import.post.ts:57 | a row whose name already exists still inserts a new company with a fresh id |
| ImportCustomers.AppendConsistent | server/api/customers/import.post.ts:57-110 | appending one company's rows keeps every schema constraint |
| ImportCustomers.ImportOneConsistent | server/api/customers/import.post.ts:45-118 | each row keeps every schema constraint |
| ImportCustomers.Step | server/api/customers/import.post.ts:45-118 | a null row crashes the request; any other row increments exactly one of success/failed |
| ImportCustomers.ImportRows | server/api/customers/import.post.ts:45-118 | `errors.length == failed`; without a null row `success + failed == rows`; a crash happens exactly when a row is null |
| ImportCustomers.NullRowStops | server/api/customers/import.post.ts:46-52 | from a null row on, nothing more is imported |
| ImportCustomers.ImportRowsOnlyAppends | server/api/customers/import.post.ts:45-118 | the import only appends rows to the existing tables |
| ImportCustomers.ImportRowsConsistent | server/api/customers/import.post.ts:45-118 | the whole import keeps every schema constraint |
| ImportCustomers.ImportLeavesAssignerUnset | server/api/customers/import.post.ts:105-110 | no imported assignment has an assigner |
| ImportCustomers.ImportLoop | server/api/customers/import.post.ts:45-118 | the `for` loop with its counters computes the whole-sheet import |
| ImportCustomers.ImportCustomers | server/api/customers/import.post.ts:7-120 | a missing or `null` body ends with 500 (the destructuring throws) and a body without a `customers` array is refused with 400, both before any insert; otherwise the tally, or 500 when a null row is met |
| AutoTask.AutoTaskRecord | server/utils/createAutoTask.ts:22-35 | title "Erstkontakt: " + company name, status "Nicht angefasst", priority "Mittel", the fixed description, ids copied, dates null |
| AutoTask.TitleNamesCompany | server/utils/createAutoTask.ts:23 | the title is the prefix followed by the company name |
| AutoTask.CreateAutoTask | server/utils/createAutoTask.ts:14-46 | an insert failure returns null and changes nothing; otherwise one task row with a fresh id is appended and returned |
| AutoTask.AutoTasksDistinct | server/utils/createAutoTask.ts:37-45 | two automatic tasks get different ids, and different titles for different companies |
| TaskCreate.OrNull | server/api/tasks/index.post.ts:31-33 | `v \|\| null` |
| TaskCreate.CreateTask | server/api/tasks/index.post.ts:4-36 | 500 and nothing inserted for a missing or `null` body (reading `body.title` throws); 400 without a title or company id, nothing inserted; 500 and nothing inserted when the company id is truthy but not a number (an assumption, see "Left out"); otherwise one row with status "Open" and priority "Medium" by default (given values verbatim), absent dates and ids null, returned as inserted |
| TaskCreate.GivenStatusKept | server/api/tasks/index.post.ts:27-28 | a given status and priority are stored verbatim, not checked against a list |
| TaskCreate.CompanyZeroRefused | server/api/tasks/index.post.ts:9-14 | company id 0 is falsy and refused with 400 |
| ImportLogPost.CountOrZero | server/api/customers/import-log.post.ts:56-61 | a falsy count is stored as 0, any other value as given |
| ImportLogPost.TextOrNull | server/api/customers/import-log.post.ts:53-55 | an empty project name or agent id becomes null |
| ImportLogPost.FinalTeamId | server/api/customers/import-log.post.ts:47 | a truthy team id becomes a number, a falsy one null |
| ImportLogPost.LogRecord | server/api/customers/import-log.post.ts:51-62 | the log row: the session user as importer, the defaulted fields |
| ImportLogPost.SaveImportLog | server/api/customers/import-log.post.ts:15-71 | 401 without a session, 403 for Agent, then 500 for a missing or `null` body (the destructuring throws) and 500 when the insert fails, nothing stored; otherwise exactly one log appended and `success: true` |
| ImportLogPost.SavedLogTrustsSessionOnly | server/api/customers/import-log.post.ts:52 | whatever the body says, the save succeeds alike, the importer is the session user, and each count stored is a truthy body value or 0 |
| ImportLogPost.UnknownRoleMaySave | server/api/customers/import-log.post.ts:26-31 | only Agent is refused: an unknown role may save a log |
| CustomerList.Orderings | server/api/customers/index.get.ts:13-41 | the four orderings of the listing are total preorders |
| CustomerList.CompanyOrder | server/api/customers/index.get.ts:13 | companies newest first, a permutation of the table |
| CustomerList.ContactsOf | server/api/customers/index.get.ts:17-20 | a company's contacts, primary first: exactly the stored contacts with that company id, each as often as stored |
| CustomerList.TasksOf | server/api/customers/index.get.ts:40-41 | a company's tasks by due date ascending, undated first: exactly the stored tasks with that company id, each as often as stored |
| CustomerList.LatestAssignment | server/api/customers/index.get.ts:25-27 | null iff the company has no assignment, otherwise one of its assignments with the latest `assignedAt` |
| CustomerList.NoteOf | server/api/customers/index.get.ts:22-61 | the company's note, null iff there is none |
| CustomerList.NameOf | server/api/customers/index.get.ts:71 | a user's name by id, null when the id is absent or unknown (or the name empty) (also lines 119-121) |
| CustomerList.ContactViews | server/api/customers/index.get.ts:94-109 | as many contact entries as stored contacts of the company, primary first; entry k is the view of the k-th contact of `ContactsOf` (a stored contact of the company), with missing text as "" |
| CustomerList.TaskViews | server/api/customers/index.get.ts:112-126 | as many task entries as stored tasks of the company, by due date; entry k is the view of the k-th task of `TasksOf` (a stored task of the company) |
| CustomerList.StatusOf | server/api/customers/index.get.ts:69 | the latest assignment's status, "Hinzugefügt Am" without one; never empty |
| CustomerList.EmployeeText | server/api/customers/index.get.ts:76 | the count as text, "0" when null |
| CustomerList.CustomerOf | server/api/customers/index.get.ts:58-127 | one entry: status, agent id, agent name and team (0 read as null) from the latest assignment, all null without one; every company text column as stored or "" when missing; hook and research result from the note, "" without one; employee count as text; the contact and task views of the company in their orders |
| CustomerList.Customers | server/api/customers/index.get.ts:58 | one entry per company, newest company first (also line 130) |
| CustomerList.EveryCompanyListed | server/api/customers/index.get.ts:11-13 | every company appears, in newest-first order (also line 58) |
| CustomerList.UnassignedCompanyShowsDefault | server/api/customers/index.get.ts:69-72 | a company without assignment shows "Hinzugefügt Am" and no agent or team |
| CustomerList.StatusFromLatestAssignment | server/api/customers/index.get.ts:25-27 | the status comes from an assignment at least as recent as every other of the company (also lines 60, 69) |
| ClearImportLogs.RelatedCompanies | server/api/dev/clear-import-logs.get.ts:60-71 | the distinct companies of the assignments the importer made within ten seconds of the log |
| ClearImportLogs.WindowStart | server/api/dev/clear-import-logs.get.ts:50-57 | the window starts at the stored instant, at the epoch for NULL (`new Date(null)`), and there is none for a TEXT date |
| ClearImportLogs.NoTimestampNoCompanies | server/api/dev/clear-import-logs.get.ts:50-57 | a log whose date does not read back as a date is skipped and reaches no company |
| ClearImportLogs.NullTimestampFromEpoch | server/api/dev/clear-import-logs.get.ts:50-71 | a NULL-dated log is not skipped: it reaches exactly the companies its importer assigned in the first ten seconds after the epoch |
| ClearImportLogs.StepOf | server/api/dev/clear-import-logs.get.ts:71-92 | a log with companies purges them and adds their number to the counters; without companies nothing happens |
| ClearImportLogs.PurgeIsCascade | server/api/dev/clear-import-logs.get.ts:75-90 | the six deletes in order equal deleting the companies with their cascades, plus their tasks |
| ClearImportLogs.SweepStep | server/api/dev/clear-import-logs.get.ts:49-93 | the loop handles the logs one after the other |
| ClearImportLogs.DeleteRelated | server/api/dev/clear-import-logs.get.ts:73-92 | the in-order deletes compute the purge of the log's companies |
| ClearImportLogs.ClearAll | server/api/dev/clear-import-logs.get.ts:23-113 | 403 in production with nothing read or deleted; otherwise every log handled, the log table emptied, `importLogs` the number of logs read, and each other counter grown by the number of companies |
| ClearImportLogs.PurgeConsistent | server/api/dev/clear-import-logs.get.ts:73-92 | after a purge no note, contact, assignment, activity or task refers to a purged company, and every constraint holds |
| ClearImportLogs.SweepConsistent | server/api/dev/clear-import-logs.get.ts:49-93 | the loop keeps every schema constraint |
| ClearImportLogs.SweepEffect | server/api/dev/clear-import-logs.get.ts:49-93 | only companies and their rows disappear; users, teams and logs stay; every company a handled log reached is gone |
| ClearImportLogs.UnreachedCompanySurvives | server/api/dev/clear-import-logs.get.ts:60-92 | a company no log's window reaches survives |
| ClearImportLogs.ClearedDatabase | server/api/dev/clear-import-logs.get.ts:49-96 | afterwards the log table is empty, the constraints hold and every matched company is gone |
| ClearImportLogs.UnassignedByNobodySurvives | server/api/dev/clear-import-logs.get.ts:67 | a company whose assignments have no assigner, as every imported one, is never deleted |
| ClearImportLogs.CountersCountCompanies | server/api/dev/clear-import-logs.get.ts:84-85 | the contact counter counts companies: two contacts deleted, counter 1 |
| Schema.TextColumn | server/database/schema.ts:90-104 | a nullable text column is NULL exactly for undefined or null |
| Schema.NextId | server/database/schema.ts:32 | a new id is larger than every id in the table |
| Schema.KeyIdentifiesRow | server/database/schema.ts:12-33 | with a unique key, equal keys mean the same row |
| Schema.AppendKeepsKeysDistinct | server/database/schema.ts:12 | appending a row with a new key keeps the key unique (also lines 33, 67-69, 126) |
| Schema.FilterKeepsKeysDistinct | server/database/schema.ts:12 | deleting rows keeps a key unique (also lines 33, 67-69, 126) |
| Schema.InsertUser | server/database/schema.ts:11-12 | refused exactly when the id (PRIMARY KEY) or the email (UNIQUE) is taken, otherwise the user is appended |
| Schema.InsertTeam | server/database/schema.ts:33-36 | refused exactly when the name is taken or the lead is not a user; otherwise one team with a fresh id |
| Schema.InsertTeamMember | server/database/schema.ts:56-69 | refused exactly when the pair exists or the team or user is missing; otherwise one membership with a fresh id |
| Schema.InsertNote | server/database/schema.ts:122-127 | refused exactly when the company already has a note or does not exist; otherwise one note with a fresh id |
| Schema.InsertContact | server/database/schema.ts:153-163 | refused without a first name (NOT NULL) or company; `isPrimary` defaults to false; the new contact has a fresh id |
| Schema.InsertsKeepUnique | server/database/schema.ts:11-12 | every accepted insert of a user, team, membership, note or contact keeps all eight primary keys and the UNIQUE columns (also lines 32-33, 56, 67-69, 122-126, 153) |
| Schema.ClearMissingContacts | server/database/schema.ts:237-239 | `activities.contactId` set null: a reference to a deleted contact becomes NULL, all else unchanged |
| Schema.DeleteCompanies | server/database/schema.ts:127 | deleting companies cascades to their notes, contacts, assignments and activities; other tables unchanged (also lines 156, 193, 236) |
| Schema.CompanyIdsAfterDelete | server/database/schema.ts:89 | the remaining company ids are the old ones minus the deleted |
| Schema.DeleteCompaniesConsistent | server/database/schema.ts:127 | deleting companies keeps every constraint and leaves no reference to them (also lines 156, 193, 236) |
| Schema.DeleteTeam | server/database/schema.ts:57-59 | deleting a team cascades to its memberships and sets `assignments.teamId` to null (also lines 194-196) |
| Schema.DeleteTeamConsistent | server/database/schema.ts:57-59 | deleting a team keeps every constraint and leaves no reference to it (also lines 194-196) |
| Schema.DeleteUser | server/database/schema.ts:34-36 | as declared: refused exactly when the user leads a team or has an activity, otherwise the nullable delete (also lines 240-242) |
| Schema.Unset | server/database/schema.ts:130-132 | `set null` of one reference: cleared iff it names the user |
| Schema.DeleteUserNullable | server/database/schema.ts:60-62 | memberships cascade; lead, author, agent, assigner and activity user references to the user become NULL; nothing else changes (also lines 130-132, 197-206) |
| Schema.DeleteTeamleadFails | server/database/schema.ts:34-36 | a team lead can never be deleted as declared |
| Schema.DeleteTeamleadExample | server/database/schema.ts:34-36 | one lead of one team: the delete fails as declared, and leaves a lead-less team when the column is nullable |
| Schema.DeleteUserNullableKeepsReferences | server/database/schema.ts:60-62 | with nullable columns any user delete keeps every constraint and leaves no reference to the user (also lines 130-132, 197-206) |
| Schema.UserIdsAfterDelete | server/database/schema.ts:11 | the remaining user ids are the old ones minus the deleted user |
| Schema.TeamIdsAfterUserDelete | server/database/schema.ts:32 | deleting a user keeps every team |
| Migration.Split | scripts/run-migration.js:39 | `split(";")` gives at least one piece |
| Migration.JoinSplit | scripts/run-migration.js:39 | joining the pieces with ";" gives the text back |
| Migration.SplitAround | scripts/run-migration.js:39 | splitting `a;b` is splitting `a` followed by splitting `b` |
| Migration.SplitNoSeparator | scripts/run-migration.js:39 | no piece contains ";" |
| Migration.TrimParts | scripts/run-migration.js:40 | a trimmed piece is part of the piece and has no white space at either end |
| Migration.StatementsWellFormed | scripts/run-migration.js:38-41 | every statement is trimmed, non-empty, free of ";" and does not start with "--" |
| Migration.StatementsInOrder | scripts/run-migration.js:38-47 | statements keep their source order |
| Migration.CommentedStatementDropped | scripts/run-migration.js:41 | a piece whose first line is a "--" comment is dropped together with the statement under it |
| Migration.StatementsKeepingCommentedWellFormed | scripts/run-migration.js:36-41 | the corrected splitter also yields only trimmed, non-empty, ";"-free, non-comment statements |
| Migration.CommentedStatementKept | scripts/run-migration.js:36-41 | the corrected splitter keeps the statement under a leading comment line |
| Migration.RunMigration | scripts/run-migration.js:12-41 | no or empty argument, or no file, exits with code 1 before connecting; exactly when both are present the statements sent are `Statements` of the file's text, each well-formed |

## Left out

- Session retrieval (`auth.api.getSession`), the Drizzle handle (`useDrizzle`) and configuration are foreign libraries. The session and the database are inputs. The missing event argument of `useDrizzle()` in the import and task endpoints is plumbing, so the store is taken as available.
- `avgTimeToContact` (server/api/admin/analyse/index.get.ts:290-314) averages and rounds floating-point day counts; it is not part of the agent statistics here.
- Date parsing is not modelled. `dateFrom`/`dateTo` and all timestamps are integers in milliseconds. A stored import-log date is NULL, a TEXT (which reads back as an invalid date), or an instant; instants are assumed inside the range of a JavaScript `Date`, so a window end beyond it is not modelled. The local-time `setHours` is modelled on UTC days.
- ImportCustomers.NewCompany, ImportCustomers.NewContact, ImportCustomers.NewNote: the inserts leave `companies.created_at`, `contacts.created_at` and `conversation_notes.updated_at` to their `CURRENT_TIMESTAMP` default, which SQLite stores as TEXT in these integer columns; the model stores the current time as an integer instead. So the customer listing's `desc(companies.createdAt)` orders imported companies by import time, where SQLite would list these TEXT values before every integer date.
- `parseInt` is modelled for decimal digits with an optional sign after leading white space. Hex prefixes and radix detection are not modelled. `parseFloat` is only used for its whole part, which decides the revenue band because every threshold is a whole number.
- AUTOINCREMENT ids are modelled as one more than the largest id present, so the never-reuse guarantee after deletes is not modelled.
- Which insert throws, and with what message, is an input. So are the production flag of the clean-up endpoint and the insert failures of the auto-task and import-log endpoints.
- The execute loop of scripts/run-migration.js:43-47 (unawaited `client.execute` calls) and its logging are I/O and are not modelled. The model stops at the list of statements to run.
- The dev seed and reset endpoints, the spreadsheet template, the one-off DB scripts, the UI composables and middleware, and the trivial select-all listings are not part of this model. Neither is anything the shown code does not do: change-log recording, role-scoped customer listing, task completion, status lists, contact replacement.
- Analyse.BulkStatistics: states each paged agent's assignment count only. The task and activity statistics are stated by Analyse.PageStatistics about the grouped rows. The chunked fetch is proved equal, as a multiset, to one query over all ids (AnalyseBulk.FetchInChunks), but not carried through to the counts.
- AnalyseStats.StatusTally: a status that names an Object.prototype member (`constructor`, `toString`, `valueOf`, `hasOwnProperty`, `__proto__` and the like) is not modelled. In the source, `statusBreakdown[s] || 0` then reads the inherited member, so the stored "count" becomes a string, and a `__proto__` key is never stored. The tally here counts such statuses like any other.
- AnalyseStats.BreakdownSumsToTotal: holds of the source only when no status names an Object.prototype member; for such a status the source's value is a string (see the line above).
- AnalyseStats.TypeTally: `activity.type in activitiesByType` is also true for inherited Object.prototype names, so an activity type such as "toString" adds a key whose value is NaN to the returned record. The model counts the four types and nothing else.
- Analyse.AgentStatistics: the Object.prototype cases of StatusTally, BreakdownSumsToTotal and TypeTally above are not modelled in the agent's status breakdown and activity counts.
- Analyse.AgentStatistics: omits `avgTimeToContact` (floating point); `recentAssignment` is the timestamp rather than its ISO text.
- ImportLogList.Entry: the fallback for an invalid `createdAt` is the current time as an input, and the ISO formatting of dates is not modelled.
- TaskCreate.CreateTask: the `tasks` table is not declared in server/database/schema.ts, so the model assumes `tasks.companyId` is an INTEGER column holding a company id. A truthy company id that is not a number is modelled as an insert that throws (500). SQLite's type affinity might instead store such a value as text; a task row here cannot hold it.
- Schema.NotNull: only the two NOT NULL columns that also carry `onDelete: "set null"` are tracked. The other NOT NULL columns hold by construction of the datatypes.
- The tables `tasks`, `import_logs`, `user` and `sessions` are missing from server/database/schema.ts. `tasks`, `import_logs` and the authentication `user` table are declared from how the endpoints use them; `sessions` is not part of this model.

## Findings

| source | as written | input that shows it | evidently intended | confidence | as-written member | corrected member |
|---|---|---|---|---|---|---|
| server/database/schema.ts:34-36, 240-242 | `teams.teamleadId` and `activities.userId` are NOT NULL but `onDelete: "set null"`, so deleting a user who leads a team or has an activity fails with a NOT NULL violation | user "u1" leading team "Sales"; delete "u1" | the reference becomes NULL, as for the other `set null` columns | medium, not executed | Schema.DeleteUser (with Schema.DeleteTeamleadFails, Schema.DeleteTeamleadExample) | Schema.DeleteUserNullable (with Schema.DeleteUserNullableKeepsReferences) |
| scripts/run-migration.js:41 | a piece is dropped when it starts with "--", so a statement preceded by a comment line in the same piece is never run | "-- create table\nCREATE TABLE t (x)" | remove the comment lines and run the statement ("Remove comments and empty statements") | medium, not executed | Migration.Statements (with Migration.CommentedStatementDropped) | Migration.StatementsKeepingCommented (with Migration.CommentedStatementKept, Migration.StatementsKeepingCommentedWellFormed) |

Migration.RunMigration keeps the as-written splitter, since it models what the script sends to the database.
