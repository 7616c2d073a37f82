# ClearView Insurance identity registry, role guards, rate seeding and prompt building in Dafny

This project models four parts of the ClearView Insurance web application and
proves properties about them:

- **The identity registry.** Admins, customers, insurers and regulators live in
  four separate tables. The model covers session identifiers (`get_id`,
  `load_user`), self-service sign-up, login across the four tables, the role
  dashboard redirect, and the administrator's enable/disable and edit routes.
- **The role guards.** These are the `admin_required`, `customer_required`,
  `insurer_required` and `regulator_required` decorators.
- **Premium-rate seeding.** For every active insurance company and each of
  the four cover types, the script adds the default rate row unless one exists.
  It counts rows created and rows skipped, then commits or rolls back as a
  whole.
- **The LLM client's string building.** This covers the endpoint URLs, the
  system prompt and the data summary lines, and the message list sent to the
  chat endpoint.

## Layout

- `wrappers.dfy`: the `Option` type.
- `pystr.dfy` (module `PyStr`): the Python string built-ins the core relies on:
  - `str(int)` and `int(str)`;
  - `split('_', 1)`, `split`/`join`;
  - `strip`, `replace`, `title`.
- `models.dfy` (module `Models`): the four principal kinds, their row type,
  `get_id`, and the column constraints as table predicates.
- `decorators.dfy` (module `Decorators`): the four role guards.
- `app.dfy` (module `App`): the database value, one pure step function per
  route (the specification), and the class `Registry`.
  - `Registry` keeps the four tables as fields.
  - Its methods run the routes' loops and updates in place.
  - Each method is proved equal to its step function.
- `app_proofs.dfy` (module `AppProofs`): properties of the route specifications.
- `seed.dfy` (module `Seed`): the rate table as a class, the seeding method
  with its nested loops, the functional specification of those loops, and
  their properties.
- `llmservice.dfy` (module `LlmService`): Python values and their `str`, the
  service class, the prompt and summary functions, and the summary method's
  loop.
- `llm_proofs.dfy` (module `LlmProofs`): properties of the prompt and summary.

Modelling choices:

- **Foreign calls become parameters.**
  - Password hashing is a function `hash`. `generate_password_hash` is salted,
    so `hash` stands for the one output a given call produced. No lemma
    compares two hash results; `SignupThenLogin` only assumes that `check`
    accepts the password against the hash made from it.
  - `check_password_hash` is a predicate `check`.
  - The outcome of the seeding commit is a boolean `commitSucceeds`.
- **New row keys** are one more than the largest key in the table. This is
  SQLite's rowid rule for an integer primary key (`App.MaxId` is the largest
  key, 0 for an empty table). Nothing proved depends on it beyond freshness.
- **Database errors.** A unique `staff_id` clash, or a NULL written to a NOT
  NULL column, makes the commit fail. The model gives this the outcome
  `IntegrityError` and leaves the state unchanged.
- **`edit_user` is modelled as written.**
  - Its duplicate check looks only at the customer, insurer and regulator
    tables.
  - It skips rows whose key equals the edited user's key in *every* one of
    those tables, even though keys are per table.
  - So unlike sign-up, editing does not keep usernames and emails unique across
    all four tables. `AppProofs.EditCanBreakGlobalUniqueness` exhibits two such
    edits: one that takes an insurer's username through the shared key 1, and
    one that takes the admin's username.
  - Per-table uniqueness is kept.

## Model

| member | source | states |
|---|---|---|
| Models.GetId | models.py:13-14 | the session identifier splits at its first `_` into the table's prefix and the decimal key (also models.py:23-24, 34-35, 45-46) |
| Models.PrefixesDistinct | models.py:14 | no prefix contains `_`, and two prefixes are equal only for the same role (also lines 24, 35, 46) |
| Models.GetIdInjective | models.py:13-46 | two rows have the same identifier exactly when they are the same role with the same key |
| Models.NewPrincipal | models.py:6-43 | a new row is active (the `is_active` default) and keeps a staff id only outside the customer table, which has no such column |
| Models.Rank | app.py:96 | every role has its position in the fixed table order Admin, Customer, Insurer, Regulator, which signup's duplicate check and login (app.py:126-131) both follow |
| App.LoadUser | app.py:44-61 | no `_` gives None; a found row lies in the table its prefix names and its key is the parsed rest |
| App.RoleOfPrefix | app.py:51-58 | the model map returns the role whose prefix is the text, and nothing for any other text |
| App.IndexOfId | app.py:60 | `query.get`: the first row with the key, or none when no row has it |
| App.IndexOfEmail | app.py:132 | `filter_by(email=...).first()`: the first row with that email, or none when no row has it |
| App.NonAdminRole | app.py:88-91 | the accepted user types are exactly customer, insurer and regulator, never admin |
| App.MaxId | app.py:113 | the largest key in the table: it bounds every key, belongs to some row of a non-empty table, and is 0 for an empty one |
| App.NextId | app.py:113 | a new key is larger than every existing key in the table |
| App.Probe | app.py:132-133 | a probe's row is in the table, holds the stripped email and its password passes the check (completeness is `AppProofs.ProbeFirstRow`) |
| App.Dashboard | app.py:147-157 | every role has a dashboard, never the login page or user management |
| App.GuardOf | app.py:174-277 | each dashboard is behind the guard of its own role, user management behind the admin guard, and only the login page has no guard |
| App.EditedRow | app.py:243-254 | editing keeps key and status, sets username and email, changes the staff id outside the customer table only, and rehashes the password only when a non-empty one is given |
| App.Registry.UsernameOrEmailTaken | app.py:95-100 | the loop answers true exactly when some row in one of the four tables has the username or the email |
| App.Registry.Signup | app.py:80-117 | the new tables and the outcome are those of the sign-up specification |
| App.Registry.Login | app.py:120-143 | the loop over the four tables returns the login specification's outcome and changes nothing |
| App.Registry.ToggleUserStatus | app.py:195-212 | the new tables and the outcome are those of the toggle specification |
| App.Registry.EditUser | app.py:217-260 | the new tables and the outcome are those of the edit specification |
| App.Registry.AddRow | app.py:113-114 | `session.add`: one row is appended to one table, the others stay as they were |
| App.Registry.SetRow | app.py:207 | one row of one table is replaced, everything else stays as it was |
| AppProofs.IndexOfIdFindsRow | app.py:60 | with unique keys, looking up a row's key finds that row |
| AppProofs.IndexOfIdAfterUpdate | app.py:206-207 | replacing a row by one with the same key leaves the lookup at the same place |
| AppProofs.LoadUserRoundTrip | app.py:44-61 | `load_user(u.get_id())` gives back the row `u` from its own table |
| AppProofs.LoadUserKnownTag | app.py:49-60 | with a known prefix, a key that is not a number raises ValueError; otherwise the row is found exactly when the table has that key |
| AppProofs.LoadUserUnknownTag | app.py:51-61 | an unknown prefix gives None |
| AppProofs.SignupRefusesOtherTypes | app.py:88-91 | any other user type, admin included, is refused and nothing changes |
| AppProofs.SignupRefusesTaken | app.py:95-102 | a username or email present in any of the four tables is refused and nothing changes |
| AppProofs.SignupSucceedsIff | app.py:88-116 | sign-up succeeds exactly when the type is allowed, the username and email are free everywhere, and the staff id is not in use |
| AppProofs.SignupAddsOneRow | app.py:92-116 | a successful sign-up appends exactly one active row with the hashed password and a fresh key to the table of the user type, keeps the staff id only for insurers and regulators, and leaves the other tables alone |
| AppProofs.SignupPreservesTablesValid | app.py:104-116 | sign-up keeps each table's keys, usernames, emails and staff ids unique (models.py:7-10, 18-19, 28-31, 39-42) |
| AppProofs.SignupPreservesInvariants | app.py:95-116 | sign-up keeps usernames and emails unique across all four tables |
| AppProofs.SignupThenLoadUser | app.py:104-116 | the identifier of a freshly signed-up row loads that row |
| AppProofs.ProbeNoEmail | app.py:132 | a table with no row for the email accepts nobody |
| AppProofs.ProbeAppended | app.py:113-114 | a row appended to a table where its email is new is the row a probe of that email finds |
| AppProofs.SignupThenLogin | app.py:104-138 | after a successful sign-up, logging in with its email and password, given a check that accepts the hashed password, succeeds as the new row and lands on its role's dashboard |
| AppProofs.ProbeTablesSkips | app.py:126-140 | tables that accept nobody are passed over |
| AppProofs.LoginFirstAcceptingTableDecides | app.py:126-140 | the first table in order whose email row passes the password check decides: active gives a login to its dashboard, inactive gives the disabled error |
| AppProofs.ProbeTablesStep | app.py:126-140 | one step of the table loop |
| AppProofs.LoginUnrolled | app.py:123-142 | login is the four probes in the order Admin, Customer, Insurer, Regulator, ending in invalid credentials |
| AppProofs.DecideInvalid | app.py:126-142 | one probe step ends in invalid credentials exactly when its table accepts nobody and the remaining steps do too |
| AppProofs.LoginInvalidIff | app.py:141-142 | "Invalid credentials" happens exactly when no table's email row passes the password check |
| AppProofs.ProbeFirstRow | app.py:132-133 | a probe accepts exactly when the first row with the email has a password that checks |
| AppProofs.ProbeComplete | app.py:132-133 | with unique emails, a table accepts exactly when some row has the email and a password that checks |
| AppProofs.LoginInvalidIffRows | app.py:126-142 | with valid tables, "Invalid credentials" happens exactly when no row of any table has the stripped email and a password that checks |
| AppProofs.OnlyAcceptingTableDecides | app.py:126-140 | when one table alone accepts, it decides the login wherever it stands in the order |
| AppProofs.LoginSuccessMeans | app.py:126-139 | a login names an active row of its table with the stripped email and a passing password, comes before any other accepting table, and redirects to that role's dashboard |
| AppProofs.LoginSuccessRow | app.py:132-139 | a login's row is in its table, active, with the stripped email and a passing password, and its session id and redirect are its own |
| AppProofs.LoginSuccessEarlierFail | app.py:126-133 | every table before the one that logged the user in refused the email and password |
| AppProofs.LoginThenLoadUser | app.py:138 | the session identifier set at login loads the logged-in row |
| AppProofs.LoginLandsOnOwnGuardedDashboard | app.py:138-140 | the page a login redirects to is guarded by the logged-in role's own guard (app.py:174-176, 262-277), the session passes that guard, and it passes no other role's guard |
| AppProofs.DashboardInjective | app.py:147-157 | different roles are sent to different dashboards |
| AppProofs.ToggleRefusesOtherTypes | app.py:196-204 | an unknown type (admin included) is refused and nothing changes |
| AppProofs.ToggleChangesOnlyTarget | app.py:206-212 | toggling negates the target row's `is_active`, reports its username and new status, and changes no other row |
| AppProofs.ToggleTwiceRestores | app.py:206-208 | toggling the same user twice gives back the original tables |
| AppProofs.TogglePreservesInvariants | app.py:206-208 | toggling keeps per-table and cross-table uniqueness |
| AppProofs.ToggleKeepsIdentities | app.py:206-208 | toggling keeps every row's key, username, email and staff id |
| AppProofs.SameIdentitiesValid | app.py:206-208 | tables with the same identities as valid tables are valid |
| AppProofs.SameIdentitiesGloballyUnique | app.py:206-208 | tables with the same identities as globally unique tables are globally unique |
| AppProofs.EditRefusesOtherTypes | app.py:218-226 | an unknown type (admin included) is refused and nothing changes |
| AppProofs.EditRefusesExactlyOnClash | app.py:235-241 | the edit is refused exactly when a customer, insurer or regulator row with a different key has the new username or email, and a refusal changes nothing |
| AppProofs.EditUpdatesOnlyTarget | app.py:243-256 | a successful edit replaces only the target row, as EditedRow describes |
| AppProofs.ReplacedRowKeepsValid | app.py:235-256 | replacing a row by one with the same key and a username, email and staff id no other row has keeps the table valid |
| AppProofs.EditPreservesTablesValid | app.py:235-256 | editing keeps each table's keys, usernames, emails and staff ids unique |
| AppProofs.EditCanBreakGlobalUniqueness | app.py:235-241 | an edit can give a customer the username of an insurer with the same key, or of an admin, so cross-table uniqueness is not kept |
| AppProofs.SampleDbGloballyUnique | app.py:95-100 | the sample tables (an admin, a customer and an insurer, all with key 1) have no shared username or email |
| AppProofs.EditTakesInsurerUsername | app.py:235-241 | editing customer 1 to the insurer's username is accepted, because the clash check skips key 1 in every table |
| AppProofs.EditTakesAdminUsername | app.py:235-241 | editing customer 1 to the admin's username is accepted, because the admin table is not checked |
| Decorators.Guard | decorators.py:6-12 | the view runs exactly when the visitor has a username, is authenticated and is of the required class; otherwise it is redirected to login with the message |
| Decorators.AdminRequired | decorators.py:6-12 | the view runs exactly when the visitor has a username, is authenticated and is an Admin; otherwise the message is "Admin access required." |
| Decorators.CustomerRequired | decorators.py:15-21 | the same for Customer, with "Customer access required." |
| Decorators.InsurerRequired | decorators.py:24-30 | the same for Insurer, with "Insurer access required." |
| Decorators.RegulatorRequired | decorators.py:33-39 | the same for Regulator, with "Regulator access required." |
| Decorators.AtMostOneGuardPasses | decorators.py:9-36 | no visitor passes the guards of two different roles |
| Decorators.AnonymousPassesNoGuard | decorators.py:9 | an anonymous visitor is redirected by every guard with that guard's message |
| Decorators.SessionPassesOwnGuardOnly | decorators.py:9-36 | a logged-in row passes exactly the guard of its own role |
| Seed.ActiveCompanies | seed_premium_rates.py:12 | exactly the active companies are processed, each as often as it occurs in the table and no inactive one at all |
| Seed.PremiumRateTable.SeedPremiumRates | seed_premium_rates.py:8-121 | the nested loops, counters and commit give the table and the outcome of the seeding specification |
| Seed.NoActiveCompaniesNoChange | seed_premium_rates.py:12-17 | with no active company the table is unchanged and the run stops |
| Seed.RollbackKeepsTable | seed_premium_rates.py:114-121 | a failed commit leaves the table as it was |
| Seed.SeedCompanyFacts | seed_premium_rates.py:80-111 | the inner loop adds one to a counter per cover type, only appends active rows of that company with a listed configuration, and leaves every listed cover type present |
| Seed.SeedCompaniesAppends | seed_premium_rates.py:74-111 | the counters add up to four per company and the existing rows stay as they were |
| Seed.SeedCompanyStep | seed_premium_rates.py:80-111 | one more configuration is one more visit of the inner loop |
| Seed.SeedCompaniesStep | seed_premium_rates.py:77-111 | one more company is one more run of the inner loop |
| Seed.SeedCompaniesNewRows | seed_premium_rates.py:93-110 | every new row is active, belongs to one of the companies and carries its cover type's default configuration |
| Seed.SeedCompaniesCovers | seed_premium_rates.py:77-111 | afterwards every company has a row for every cover type |
| Seed.SeedCoversEveryActiveCompany | seed_premium_rates.py:22-111 | after a committed run every active company has Comprehensive, Third-Party Only, Third-Party Fire & Theft and PSV rows |
| Seed.SeedCountsAddUp | seed_premium_rates.py:74-111 | created plus skipped equals four times the number of active companies |
| Seed.SeedOnlyAppendsDefaultsForActive | seed_premium_rates.py:12-110 | a committed run keeps the old rows; new rows are active, carry the default configuration, and never belong to an inactive company |
| Seed.SeedCompanyWhenCovered | seed_premium_rates.py:82-90 | a company that already has every cover type gets no row, only skips |
| Seed.SeedCompaniesWhenCovered | seed_premium_rates.py:82-90 | when every pair already exists the loops add nothing and skip everything |
| Seed.SeedIdempotent | seed_premium_rates.py:82-90 | a second run creates nothing, skips every pair and leaves the table as it is |
| Seed.SeedCompanyFresh | seed_premium_rates.py:82-91 | the inner loop adds rows only for pairs that have none yet |
| Seed.SeedCompaniesFresh | seed_premium_rates.py:82-91 | both loops add rows only for pairs that have none yet |
| Seed.SeedInsertsOnlyAbsent | seed_premium_rates.py:82-91 | a new row's (company, cover type) pair had no row in the table before |
| Seed.SeedKeepsPairsUnique | seed_premium_rates.py:82-110 | a run keeps the table free of two rows for one (company, cover type) pair |
| LlmService.OllamaService.constructor | llmservice.py:14-25 | the endpoints are the base URL followed by `/api/generate` and `/api/chat`; the defaults are the local server and `llama3.2:3b` |
| LlmService.GenerateEndpoint | llmservice.py:24 | the base URL followed by `/api/generate` |
| LlmService.ChatEndpoint | llmservice.py:25 | the base URL followed by `/api/chat` |
| LlmService.Lookup | llmservice.py:159 | `dict.get`: no value when no entry has the key, otherwise the value of an entry with the key |
| LlmService.KnownRole | llmservice.py:161-176 | a role value names a known role exactly when it is one of the four table prefixes |
| LlmService.BuildSystemPrompt | llmservice.py:141-186 | the prompt always starts with the base prompt and is exactly that when there is no context or it is empty |
| LlmService.SummaryValue | llmservice.py:193-198 | exactly numbers (booleans included), lists and dicts get a summary text: `True`/`False`, the signed decimal, the float's own text, `N items` and `N entries` with N the length |
| LlmService.ChatMessages | llmservice.py:107-114 | the system message with the built prompt comes first, then the caller's messages unchanged |
| LlmService.OllamaService.GenerateDataSummary | llmservice.py:188-200 | the loop's result is the summary lines of the entries, in order, joined by newlines |
| LlmProofs.EndpointsDetermineBase | llmservice.py:22-25 | the two endpoints differ, and each determines the base URL it came from |
| LlmProofs.OpeningMarks | llmservice.py:162-177 | the four role paragraphs start differently |
| LlmProofs.ParagraphsDiffer | llmservice.py:162-177 | no text begins with two different role paragraphs |
| LlmProofs.KnownRoleGetsOnlyItsParagraph | llmservice.py:159-180 | a known role adds its own paragraph right after the base prompt and no other role's |
| LlmProofs.OtherRoleGetsNoParagraph | llmservice.py:159-180 | any other role adds no paragraph: the base prompt is followed by the summary section alone |
| LlmProofs.MissingRoleIsUser | llmservice.py:159 | without a `role` key the default `'user'` adds no paragraph |
| LlmProofs.NoParagraphBeginsSummary | llmservice.py:161-184 | the summary section never begins like a role paragraph |
| LlmProofs.RoleSectionOfKnown | llmservice.py:161-180 | a known role's section is its paragraph |
| LlmProofs.ExtendsBase | llmservice.py:162-184 | appending to the base prompt: what follows it decides which texts extend it |
| LlmProofs.SummaryAppendedIff | llmservice.py:183-186 | the prompt is longer than base plus role paragraph exactly when `data_summary` is present, and then ends with the heading, the summary's `str` and a newline |
| LlmProofs.EndsWithAfterPrefix | llmservice.py:183-186 | text appended after any prefix is still at the end |
| LlmProofs.SummaryTextAtEnd | llmservice.py:183-184 | a summary string appears verbatim at the end of the prompt |
| LlmProofs.KeyLabelFacts | llmservice.py:194-198 | a key's label has its length, spaces in place of `_`, no `_`, the key's newlines, and is already title-cased |
| LlmProofs.SummaryLinesConcat | llmservice.py:192-198 | the lines of two dictionaries in sequence are the first's lines followed by the second's |
| LlmProofs.SummaryOfOneEntry | llmservice.py:193-198 | one entry gives the line "- Label: text" for a number, list or dict, and no line for anything else |
| LlmProofs.SummaryCountReadsBack | llmservice.py:196-198 | the number in a list's or a dict's text reads back as its length, followed by ` items` or ` entries` |
| LlmProofs.SummaryOfIneligible | llmservice.py:192-200 | entries with other values, such as the error string, give no line, and the summary is empty |
| LlmProofs.EveryEligibleEntryListed | llmservice.py:192-198 | every entry with a summarizable value has its line in the summary, right after the lines of the entries before it |
| LlmProofs.SingleEntryLine | llmservice.py:193-198 | a one-entry dictionary with a summarizable value gives exactly that entry's line |
| LlmProofs.ValueTextHasNoNewline | llmservice.py:194-198 | the value text of a line holds no newline |
| LlmProofs.LinesHaveNoNewline | llmservice.py:192-198 | with newline-free keys, no summary line holds a newline |
| LlmProofs.SummarySplitsIntoLines | llmservice.py:200 | splitting a non-empty summary at newlines gives back exactly its lines |
| PyStr.NatToDecimal | app.py:60 | decimal digits with no leading zero |
| PyStr.DigitsValueOfDecimal | app.py:60 | reading the decimal text of a number gives the number |
| PyStr.DecimalInjective | models.py:14 | different keys have different decimal texts |
| PyStr.ParseInt | app.py:60 | `int()` on an optional `+` or `-` and ASCII digits gives the signed value; the empty string, a lone sign, a first character that is neither sign nor digit, and a non-digit later on all raise ValueError (None) |
| PyStr.ParseIntOfDecimal | app.py:60 | `int(str(n)) == n` |
| PyStr.ParseIntOfIntDecimal | app.py:60 | `int(str(i)) == i` for every integer, negative ones included |
| PyStr.FindChar | app.py:46-49 | the first position of a character, or none when it is absent |
| PyStr.SplitOnce | app.py:46-49 | `split(sep, 1)`: nothing when `sep` is absent, otherwise the text before its first occurrence and the text after |
| PyStr.SplitOnceJoined | app.py:49 | splitting `a + sep + b` with no `sep` in `a` gives back `a` and `b` |
| PyStr.Split | llmservice.py:200 | `s.split(c)`: at least one piece, none containing `c` |
| PyStr.Join | llmservice.py:200 | joining no parts gives "", one part gives itself |
| PyStr.SplitJoin | llmservice.py:200 | splitting a join at a separator no part holds gives back the parts |
| PyStr.Strip | app.py:123 | `strip()`: the result neither starts nor ends with whitespace |
| PyStr.TrimStart | app.py:123 | the leading whitespace is removed and the rest kept |
| PyStr.TrimEnd | app.py:123 | the trailing whitespace is removed and the rest kept |
| PyStr.StripUnpadded | app.py:123 | stripping text with no surrounding whitespace changes nothing |
| PyStr.ReplaceChar | llmservice.py:194 | `replace('_', ' ')` character by character |
| PyStr.TitleAt | llmservice.py:194 | `title()` upper-cases a letter that follows a non-letter, lower-cases one that follows a letter, and keeps every other character |
| PyStr.TitleIdempotent | llmservice.py:194 | title-casing twice is title-casing once |

## Left out

- Password hashing (`generate_password_hash`, `check_password_hash`) is a foreign library. It appears as the parameters `hash` and `check`.
- Flask plumbing is not modelled: routing, templates, `flash` messages, `redirect`, the HTTP methods and `login_user`/`logout_user`. A route's effect is a result value. For login, the session identifier that `login_user` stores is part of the result.
- Form handling and validation (forms.py) are not modelled. The sign-up inputs are arbitrary strings.
- app.py's startup block (`db.create_all`, default-admin seeding, prints, lines 18-41) is deployment I/O. So are the page-only routes.
- App.Dashboard: logged-in users are always one of the four classes, so the "Unknown user type" branch (app.py:158-160) cannot be reached and is not modelled.
- PyStr.ParseInt: it accepts an optional sign followed by ASCII digits. `int()`'s tolerance of surrounding whitespace, underscores between digits and non-ASCII digits is not modelled. A key written that way raises ValueError in the model but would be read by Python.
- Decorators.SessionPassesOwnGuardOnly: a logged-in session is taken to be authenticated. Flask-Login 0.6 and later make `is_authenticated` return `is_active` for `UserMixin`, so under those versions a row disabled after login would fail every guard; the lemma assumes an active row, and the library version is not part of this model.
- PyStr.Title: it models `title()` for ASCII letters only.
- LlmService.Repr: the `repr` of a string is modelled as the text in single quotes. Python's choice of quote character and its escaping of special characters are not modelled. Floats are carried as their `repr` text.
- LlmService.OllamaService.GenerateDataSummary: dictionary keys are strings. A non-string key, whose `replace` would raise, is not modelled. A `Dict` is a sequence of pairs and may repeat a key, which a Python dict cannot; the summary lemmas hold for every sequence, so in particular for ones with distinct keys.
- Network I/O in llmservice.py is not modelled: `check_availability`, the requests posted by `generate_response` and `chat`, and the parsing of their responses. The prompt string of `generate_response` (text at line 54) and the request options are also left out.
- `get_ai_analytics_context` (llmservice.py:207-314) runs database queries and reads the clock, so it is not modelled.
- Seeding: the companies and the existing rates are inputs, and the commit's success is a boolean. The printed progress messages are left out. Rates are Dafny reals and are only compared for equality.
- The policy, claim and request lifecycle is not part of this model. Its code is not among the modelled files.
- Concurrency: each route runs alone against the database state.
