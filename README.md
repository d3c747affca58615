# Study Cafe WhatsApp bot: menu navigation and allow-list matching

This project models the two parts of the bot that hold real logic, and proves their properties:

- **The menu navigation state machine** (`menuSystem.js`). The object `MenuSystem` keeps a map `userSessions` from a user id to the menu that user is in. The menus are `MAIN`, `MENU_1`, `MENU_2` and `MENU_3`. `handleUserInput` does four things in order:
  - It lower-cases and trims the message.
  - It looks up the user's menu; a user without an entry is at `MAIN`.
  - It sends `back`, `menu` and `main` to the root from any menu.
  - It dispatches on a two-level tree. At the root, `1`, `2` and `3` enter a category. In category k, `k.j` and `kj` both give leaf j's reply, and the menu stays the same. Any other input shows the current menu again.

  `resetUserSession` deletes the user's entry.
- **The phone-number allow-list check** (`googleSheetsService.js`). `isUserAuthorized` returns false when no Sheets client exists and false when the read throws. Otherwise it strips the caller's number to its digits. Then it asks whether some trimmed cell of column A, stripped to its digits, contains that digit string or is contained in it. `isUserAuthorizedMock` asks whether the caller's digits contain one of two fixed test numbers.

Files:
- `wrappers.dfy`: `Option`.
- `strings.dfy` (module `Strings`): JavaScript's `trim`, `toLowerCase`, `replace(/\D/g, '')` and `includes`, with their characterising lemmas.
- `menu_system.dfy` (module `Menus`): the menu data (`MenuId`, `Text`, `Response`, the option tables). It also holds the specification functions `Dispatch` (one decision on a normalised input) and `Handle` (the whole session map after one message). The class `MenuSystem` keeps the map in a field. Its methods `HandleUserInput` and `ResetUserSession` follow the source's branches one by one and are proved to equal `Handle` and `Reset`.
- `menu_properties.dfy` (module `MenuProperties`): the navigation properties, proved about `Handle`.
- `sheets_auth.dfy` (module `SheetsAuth`): the allow-list check, the mock, and the corrected check described under Findings.

The reply texts are opaque. `Text` has one value per menu and one per leaf, and two texts are equal only when they are the same value. A response's `type` is the field `kind`, because `type` is a Dafny keyword. The `isSubmenu: true` / `option: "k.j"` pair is `option: Some("k.j")`.

Three facts of the code that shape the model:
- The universal tokens are `back`, `menu` and `main` (menuSystem.js:48).
- Unrecognised input writes nothing. So a user with no entry still has no entry afterwards, rather than an entry set to the root (menuSystem.js:65-66, 82-83).
- A leaf reply does not change the session (menuSystem.js:73-81).

## Model

The helpers without a row model single source lines and are described by the lemmas listed here:
- `Menus.Normalize` is `message.toLowerCase().trim()` (menuSystem.js:44). It is described by `Strings.ToLower`, `Strings.TrimStartSpec`, `Strings.TrimEndSpec` and `MenuProperties.OptionSpellingsAreNormal`.
- `Strings.Trim` is `String.prototype.trim` (menuSystem.js:44, googleSheetsService.js:50). It is described by `Strings.TrimSurrounded` and `Strings.StripNonDigitsOfTrim`.
- `Menus.Lookup` is the `|| MENUS.MAIN` default (menuSystem.js:45). It is described by `MenuProperties.NewUserIsAtMain`.
- `Menus.IsBackToken` is the test at menuSystem.js:48. It is described by `MenuProperties.BackFromAnyState` and `MenuProperties.BackInAnySpelling`.
- `SheetsAuth.TrimEach` is the `map` at googleSheetsService.js:50. It is described by `SheetsAuth.AnyEntryMatchesTrimEach`.
- `SheetsAuth.EntryMatches` is the test inside `some` (googleSheetsService.js:56-57). It is described by `SheetsAuth.EntryMatchesTrim` and `SheetsAuth.AuthorizedIff`.

| member | source | states |
|---|---|---|
| Strings.TrimStartSpec | menuSystem.js:44 | the leading-trim result is the suffix of the input after a whitespace-only prefix, and it is empty or starts with a non-whitespace character |
| Strings.TrimEndSpec | menuSystem.js:44 | the trailing-trim result is the prefix of the input before a whitespace-only suffix, and it is empty or ends with a non-whitespace character |
| Strings.TrimSurrounded | menuSystem.js:44 | `trim` removes exactly the whitespace around a word that has no whitespace at its ends |
| Strings.ToLower | menuSystem.js:44 | `toLowerCase` keeps the length and maps every ASCII capital to its small letter, position by position |
| Strings.TrimToLowerKeepsPlain | menuSystem.js:44 | normalisation leaves unchanged a string with no capitals and no whitespace at its ends |
| Strings.StripNonDigits | googleSheetsService.js:53 | the cleaned number is no longer than the input and holds only the characters 0-9 |
| Strings.StripNonDigitsAppend | googleSheetsService.js:53 | stripping non-digits distributes over concatenation |
| Strings.StripNonDigitsOfDigits | googleSheetsService.js:53 | a string of digits is left unchanged |
| Strings.StripNonDigitsOfNonDigits | googleSheetsService.js:53 | a string of formatting characters only becomes "" |
| Strings.StripNonDigitsOfTrim | googleSheetsService.js:50-56 | trimming an entry before stripping it changes nothing |
| Strings.Contains | googleSheetsService.js:56-57 | `includes` is true exactly when the needle occurs at some index of the haystack |
| Menus.NameInjective | menuSystem.js:3-8 | two states are equal exactly when their stored strings `main`, `menu1`, `menu2`, `menu3` are equal |
| Menus.LeafOptions | menuSystem.js:71-118 | every option label of a category leads to a leaf numbered 1 to 3 |
| Menus.MenuScreen | menuSystem.js:15-41 | `getMainMenu` and `getMenu1`..`getMenu3` return the menu's own screen, with `type` equal to that menu and no leaf metadata |
| Menus.LeafResponse | menuSystem.js:73-81 | a leaf reply has `type` equal to its category, `isSubmenu` set, and `option` equal to the dotted spelling "k.j" |
| Menus.Dispatch | menuSystem.js:47-121 | the reply's `type` is the menu the user is in afterwards; only back tokens and root digits write the session; leaf metadata appears exactly for a category option that is not a back token |
| Menus.Handle | menuSystem.js:43-122 | after one message, the reply's `type` is the menu the user's entry holds (the root when there is none), and no other user's entry appears, disappears or changes |
| Menus.Reset | menuSystem.js:124-126 | the user has no entry afterwards, and every other entry is unchanged |
| Menus.MenuSystem.constructor | menuSystem.js:11-13 | the session map starts empty |
| Menus.MenuSystem.HandleUserInput | menuSystem.js:43-122 | the reply and the new session map are those of `Handle`; no other user's entry appears, disappears or changes |
| Menus.MenuSystem.ResetUserSession | menuSystem.js:124-126 | the session map becomes the old map without the user |
| MenuProperties.ReplyTypeIsNewState | menuSystem.js:43-121 | the returned `type` always equals the user's menu after the call |
| MenuProperties.NewUserIsAtMain | menuSystem.js:45 | a user without an entry gets the same reply and ends in the same menu as a user stored at `MAIN` |
| MenuProperties.BackFromAnyState | menuSystem.js:47-51 | a back token from any menu stores `MAIN` for the user and returns the main menu |
| MenuProperties.ToLowerAround | menuSystem.js:44 | lower-casing leaves surrounding whitespace alone and lower-cases the word between |
| MenuProperties.BackInAnySpelling | menuSystem.js:44-51 | `back`, `menu` and `main` in any letter case and with any surrounding whitespace go to the root from any menu, before any menu-specific option |
| MenuProperties.RootDigitEntersCategory | menuSystem.js:54-64 | at the root, digit k stores category k and returns that category's menu |
| MenuProperties.RootFallback | menuSystem.js:65-66 | at the root, any other input returns the main menu and leaves the map unchanged |
| MenuProperties.OptionSpellingsAreNormal | menuSystem.js:44 | the spellings "k.j" and "kj" pass through normalisation unchanged |
| MenuProperties.LeafOptionsHoldBothSpellings | menuSystem.js:71-118 | category k's table maps both "k.j" and "kj" to leaf j, for every j in 1..3 |
| MenuProperties.LeafSpellingsAgree | menuSystem.js:71-118 | in category k, "k.j" and "kj" give identical results: leaf j's reply with `option` "k.j", and an unchanged map |
| MenuProperties.CategoryFallback | menuSystem.js:82-83 | in a category, any input that is neither a back token nor one of its options re-renders that category and leaves the map unchanged |
| MenuProperties.OtherUsersUnchanged | menuSystem.js:49-63 | every session write (the back tokens at line 49, the root digits at lines 57, 60 and 63) touches only the sender's entry, so a message changes no other entry |
| MenuProperties.ResetThenInputIsFirstInput | menuSystem.js:124-126 | after a reset, the next message gets the same reply and leaves the same entry as a first-ever message |
| MenuProperties.RepeatIsStable | menuSystem.js:43-121 | sending the same message twice gives the same reply and map both times; a root digit enters its category once, and repeating it in that category re-renders the category without writing |
| MenuProperties.AcademicResourcesWalk | menuSystem.js:43-75 | a new user sending "1", then "1.1", then "back" gets Academic Resources, then Course Materials while staying in `MENU_1`, then the root |
| SheetsAuth.Flatten | googleSheetsService.js:50 | `rows.flat()` holds exactly the cells of the rows |
| SheetsAuth.AnyEntryMatches | googleSheetsService.js:55-58 | `some` is true exactly when some entry contains the cleaned number or is contained in it, after stripping to digits |
| SheetsAuth.IsUserAuthorized | googleSheetsService.js:36-62 | false without a client; false when the read throws; false when the read returns no rows |
| SheetsAuth.EntryMatchesTrim | googleSheetsService.js:50-57 | trimming a cell never changes whether it matches |
| SheetsAuth.AnyEntryMatchesTrimEach | googleSheetsService.js:50-58 | matching the trimmed entries is the same as matching the raw cells |
| SheetsAuth.AuthorizedIff | googleSheetsService.js:49-58 | with a sheet read, the caller is admitted exactly when some cell, stripped to digits, contains the caller's digits or is contained in them |
| SheetsAuth.FormattingIgnored | googleSheetsService.js:53 | inserting non-digit characters anywhere in the caller's number never changes the outcome |
| SheetsAuth.DigitlessCellAdmitsEveryone | googleSheetsService.js:56-57 | a cell without digits strips to "", which every number contains, so it admits every caller |
| SheetsAuth.DigitlessCallerAdmitted | googleSheetsService.js:55-56 | a caller whose number has no digits is admitted by any sheet with at least one cell |
| SheetsAuth.AnyContainedIn | googleSheetsService.js:75 | the mock's `some` is true exactly when the cleaned number contains one of the listed numbers |
| SheetsAuth.IsUserAuthorizedMock | googleSheetsService.js:66-76 | the mock admits a caller exactly when the caller's digits contain 1234567890 or 9876543210 |
| SheetsAuth.MockImpliesSheet | googleSheetsService.js:55-58 | a sheet holding the two mock numbers admits everyone the mock admits |
| SheetsAuth.SheetAdmitsWhatMockRefuses | googleSheetsService.js:75 | the mock tests one direction only: "123" is refused by the mock but admitted by a sheet holding the same numbers |
| SheetsAuth.WithDigits | googleSheetsService.js:55-58 | keeps exactly the entries that have at least one digit |
| SheetsAuth.IsUserAuthorizedGuarded | googleSheetsService.js:55-58 | the corrected check admits only callers the check as written admits, and never a caller without digits |
| SheetsAuth.AnyEntryMatchesWithDigits | googleSheetsService.js:50-58 | matching the trimmed entries that have digits is the same as matching the raw cells that have digits |
| SheetsAuth.GuardedIff | googleSheetsService.js:55-58 | the corrected check admits a caller exactly when the caller has digits and some cell that has digits matches |
| SheetsAuth.GuardedIgnoresDigitlessRows | googleSheetsService.js:55-58 | in the corrected check, rows of cells without digits (a header row) change nothing |
| SheetsAuth.GuardedAgreesOnDigitCells | googleSheetsService.js:55-58 | when every cell and the caller have digits, the corrected check agrees with the check as written |
| SheetsAuth.HeaderHasNoDigits | googleSheetsService.js:53 | the header text "Phone Number" strips to "" |
| SheetsAuth.HeaderOnlySheet | googleSheetsService.js:55-58 | a sheet holding only a header without digits admits every caller as written, and no caller once corrected |
| SheetsAuth.PhoneNumberHeaderSheet | googleSheetsService.js:55-58 | a column A holding only the header "Phone Number" admits every caller as written, and no caller once corrected |

## Left out

- index.js: the Express routes, the webhook challenge, message parsing, `checkAuthorization`, HTTP status codes and logging. These are I/O around the two cores.
- whatsappService.js, googleDriveService.js and config.js: outbound HTTP calls, Drive queries and environment reads. They hold no logic worth modelling.
- `GoogleSheetsService.initialize` and the spreadsheet read: JWT authentication and the network call. They become the input `SheetsClient`. It says whether a client exists and what the read of column A returned: the rows, no `values` field, or a thrown error.
- Strings.ToLower: only ASCII letters are lower-cased. Other Unicode case mappings of `toLowerCase` are not modelled. For example, U+212A KELVIN SIGN becomes `k`, and U+0130 becomes two code units. So a message such as "BAC" followed by the Kelvin sign, which the source treats as `back`, is not a back token in the model.
- Strings are sequences of `char`, not of UTF-16 code units, so surrogate pairs are not modelled. `trim`'s whitespace set is ECMAScript's WhiteSpace and LineTerminator list as of Unicode 15.
- SheetsAuth.IsUserAuthorized: every cell is a string. A non-string cell would make `trim` throw, and the `catch` would return false; this path is not modelled.
- The wording of the menu and leaf texts: they are opaque, distinct values.
- menuSystem.js:121, the final `return this.getMainMenu()`, cannot be reached. A session only ever holds one of the four `MENUS` values, and `MenuId` has exactly those four.
- Serialising concurrent messages from one user, and the asynchronous form of the service methods: the model is sequential.
- `MenuId.Name` records the string stored for each menu. The model compares `MenuId` values instead of these strings. This is the same comparison, since the four strings are distinct (`Menus.NameInjective`).

## Findings

| source | as written | input that shows it | evidently intended | confidence | as-written member | corrected member |
|---|---|---|---|---|---|---|
| googleSheetsService.js:55-58 | a cell without digits strips to "", and "" is contained in every cleaned number, so that one cell admits every caller | column A holding the header "Phone Number" (or any text cell), and any caller | only cells that hold a number should admit callers | medium; not executed; latent in the bot as shipped, whose testing mode is always on (config.js:21) and whose Sheets client is never initialised (index.js:15) | SheetsAuth.DigitlessCellAdmitsEveryone | SheetsAuth.IsUserAuthorizedGuarded |
| googleSheetsService.js:53-57 | a caller whose number has no digits strips to "", and every cell contains "", so that caller is admitted by any non-empty sheet | the caller "+" (or any number without digits) and a sheet holding "123" | a caller without a phone number should be refused | low; not executed; unreachable from index.js, which passes WhatsApp's digit-only sender id (index.js:49) and skips the check in testing mode (config.js:21, index.js:91-94) | SheetsAuth.DigitlessCallerAdmitted | SheetsAuth.IsUserAuthorizedGuarded |

`SheetsAuth.HeaderOnlySheet` and `SheetsAuth.PhoneNumberHeaderSheet` show both sides of the first row on the same sheet. The corrected check is proved in three lemmas:
- `GuardedIff`: it admits a caller exactly when the caller's number has digits and some cell that has digits matches.
- `GuardedIgnoresDigitlessRows`: digitless rows never matter.
- `GuardedAgreesOnDigitCells`: it agrees with the original whenever every cell and the caller have digits.

`SheetsAuth.IsUserAuthorized` remains the model of the source as written.
