# kimai2-cmd in Dafny

A model of the deterministic core of `kimai2-cmd`, a command-line client for
the Kimai 2 time-tracking server, together with proofs about it. The client is
one JavaScript file. Around its HTTP, prompt and file-system glue sit a few
rules, and this project states each as pure functions:

- **Server URL and requests** (`serverurl.dfy`, `api.dfy`). `sanitizeServerUrl`
  removes the trailing run of `/`. `callKimaiApi` builds the request options:
  the URL, the two auth headers, and the optional query string, body and JSON
  content type. It then settles the call from the server's reply: a parsed
  payload with a truthy `message` prints the server error and rejects.
- **JSON as the client sees it** (`json.dfy`). Parsed values, property access
  (the last duplicate key wins, and a missing key is `undefined`), JavaScript
  truthiness, and `String(v)`.
- **Operations as traces** (`operations.dfy`). Stop, restart, start and
  scripted `start [project] [activity]` are sequences of observable events:
  requests sent and lines printed. The server's replies are an input, consumed
  in call order. A reply is an error the HTTP library reports while it sets
  the call up, an error it reports later, a body that does not parse, or a
  parsed value. When the replies run out, the trace ends with a request
  still waiting. A rejection, or an uncaught exception in a reply callback,
  which halts the process, ends the chain.
- **Name lookup** (`lookup.dfy`). `findId` returns the first element whose
  lower-cased name equals the lower-cased query. The autocomplete prompt's
  answer picks the first element whose name it is (`indexOf`).
- **Durations** (`duration.dfy`). `formattedDuration` takes the hour-of-day and
  minute-of-hour components, as the date library reports them, and
  zero-pads each to two characters.
- **Listing** (`listview.dfy`, `listing.dfy`). `printList` chooses a mode by
  flag precedence (verbose, id, argos, argosbutton, regular). It chooses each
  line's layout by endpoint, and for measurements by whether the entry is
  finished. `console.log` of several arguments is modelled as joining them
  with single spaces. Node does exactly that when the first argument holds
  no `%` directive, which the model assumes (see "Left out").
- **Settings file** (`settings.dfy`). `iniPath` tries the `KIMAI_CONFIG` path
  first, then `settings.ini` under each `iniRoot` entry in insertion order.
  `iniFullPath` picks the install type's root for saving.
- **Rainmeter and choices** (`rainmeter.dfy`, `choices.dfy`). The variables and
  meters `updateRainmeter` derives, and the measurement choices of
  `uiSelectMeasurement`.

The file system is a set of existing paths. `path.join` is a function that the
caller supplies. The current time, and the date library's parsing of
`begin`/`end`, are given as inputs: `finished`, `sinceBeginMs` and `spanMs` on
a list element. `updateRainmeter` reads the clock twice, once for the hours
and once more for the minutes of the active entry. The model takes the time
that passes between the two readings as a further input, `laterMs`. One
millisecond before a full hour the two readings can give hours "00" and
minutes "00", which is neither reading's time; `Rainmeter.RainmeterTornReading`
shows this.

The hours component of a duration is the date library's `hours()`, which is
the hour within the day (0-23). A measurement running 25 hours therefore
shows "01:00", and `Duration.FormattedDurationWrapsAtDay` proves the wrap.

## Model

| member | source | states |
|---|---|---|
| ServerUrl.Sanitize | kimai2-cmd.js:744-746 | the result is a prefix of the URL that does not end in '/', and everything removed is '/' |
| ServerUrl.SanitizeRemovesExactlyTrailingRun | kimai2-cmd.js:744-746 | for a URL `p` that does not end in '/' followed by any run of slashes, the result is exactly `p` |
| ServerUrl.SanitizeIdempotent | kimai2-cmd.js:744-746 | sanitizing twice gives the same as sanitizing once |
| ServerUrl.SanitizeIgnoresAddedSlashes | kimai2-cmd.js:744-746 | appending slashes to the configured URL does not change the sanitized base |
| Json.Get | kimai2-cmd.js:84 | property access on a non-null value yields the last binding of the key in an object, and undefined for a missing key or a non-object; `null` is excluded because reading its property throws, and each caller models that throw |
| Api.BuildRequest | kimai2-cmd.js:56-71 | URL = sanitized base + "/api/" + endpoint; X-AUTH-USER/X-AUTH-TOKEN carry username/password; body and Content-Type: application/json exactly when the body is truthy; qs exactly when the filter is truthy; no other headers |
| Api.RequestIgnoresTrailingSlashes | kimai2-cmd.js:56-57 | a configured URL with extra trailing slashes builds the same request |
| Api.RequestUrlHasNoDoubleSlash | kimai2-cmd.js:57 | the base and "/api/" meet in one '/': the character before the API path is not '/' |
| Api.Settle | kimai2-cmd.js:75-91 | an error reported while `request` sets the call up rejects with its cause, and is the only way to a transport rejection; a payload with a truthy `message` rejects with that message and never resolves; an error reported later, an unparsable body or a null body halts the process on an exception thrown uncaught in the callback, before any handler of the call runs (after a late error the call has already rejected at :77 when :80 throws); any other payload resolves with itself |
| Api.ReplyLines | kimai2-cmd.js:84-88 | the heading, the code and the message are printed exactly when the call rejects with a server error |
| Api.CallEvents | kimai2-cmd.js:75-91 | one call sends exactly its request, first; on a server error the heading, the code and the message follow it, and exactly otherwise nothing follows |
| Text.NatToString | kimai2-cmd.js:483-484 | the decimal text of a number is a non-empty string of digits, with no leading zero except for 0 itself |
| Text.ParseNatToString | kimai2-cmd.js:483-484 | reading the decimal text back gives the number |
| Text.Lower | kimai2-cmd.js:298 | lower-casing keeps the length and changes only upper-case letters, each to its lower-case form |
| Text.LowerIdempotent | kimai2-cmd.js:298 | lower-casing twice is lower-casing once |
| Duration.PadKeepsValue | kimai2-cmd.js:486-492 | a padded component of a number below 100 is two digits that read back as that number |
| Duration.DurationParts | kimai2-cmd.js:480-496 | each part is the component's text with "0" in front exactly when that text is one character long; both parts are two digits and read back as hours < 24 and minutes < 60 |
| Duration.FormattedDuration | kimai2-cmd.js:494-498 | the text is five characters, with ':' in the middle and the two parts on either side |
| Duration.FormattedDurationJoinsParts | kimai2-cmd.js:494-498 | the text form equals the array form joined by ':' |
| Duration.FormattedDurationWrapsAtDay | kimai2-cmd.js:481-484 | a duration and the same duration plus 24 hours format alike |
| Duration.HoursWrapAtDay | kimai2-cmd.js:483 | the hours component is unchanged by adding a day |
| Duration.MinutesWrapAtDay | kimai2-cmd.js:484 | the minutes component is unchanged by adding a day |
| Duration.FormattedDurationDeterminesComponents | kimai2-cmd.js:480-499 | equal texts mean equal hours-of-day and minutes-of-hour |
| Lookup.FindId | kimai2-cmd.js:291-305 | found exactly when some element's lower-cased name equals the lower-cased query and every element before it compared without error, and then it carries that first match's id; not found exactly for an empty list or when every element compared and none matched; a missing query or a non-string name before a match throws; the comparisons the client still makes after the match are under "Left out" |
| Lookup.ShiftFirstMatch | kimai2-cmd.js:296-301 | past a non-matching head, the first match of the list is the first match of its tail, one position further on |
| Lookup.FindIdIgnoresCase | kimai2-cmd.js:298 | queries that agree once lower-cased find the same result |
| Lookup.FindIdPrefersEarlierMatch | kimai2-cmd.js:296-300 | once a match exists, anything appended to the list does not change the id the lookup resolves with (the throw a later element can raise in the continued scan is under "Left out") |
| Lookup.IndexOf | kimai2-cmd.js:569 | `indexOf` gives the first index holding the answer, or -1 exactly when no element holds it |
| Lookup.AutocompleteSelect | kimai2-cmd.js:538-575 | the promise rejects exactly when some element is `null`, whose `.name` throws while the choices are built; otherwise a choice is selected exactly when some element's name is the answer, and then it is the first such element's name and id |
| Operations.Call | kimai2-cmd.js:48-94 | a call sends exactly its request, whether or not the reply has arrived |
| Operations.ListEvents | kimai2-cmd.js:371-387 | a list call sends exactly its GET; a call that does not reject prints nothing; a transport rejection prints "Error: " and its cause; a server error prints the three server-error lines and then "Error: " and the message |
| Operations.Elements | kimai2-cmd.js:296-297 | the loops over a list see an array's items, a string's characters (one element per Unicode character, which is its `length` when every character lies in the Basic Multilingual Plane; see "Left out"), and nothing for any other value, whose `length` is undefined |
| Operations.ElementOfString | kimai2-cmd.js:297 | element `k` of a string is its `k`-th Unicode character, as a one-character string |
| Operations.StartBody | kimai2-cmd.js:265-269 | the POST body is an object whose `begin` is the current time and whose `project` and `activity` read back as given, undefined ones left out, with no other keys |
| Operations.StopTargets | kimai2-cmd.js:345-353 | one stop request per entry, in list order, for each entry's id, ending at the first null entry, whose `.id` throws |
| Operations.StopStep | kimai2-cmd.js:348-350 | one stop sends exactly its PATCH; when it resolves, the trace is the PATCH and then "Stopped:" with the returned id |
| Operations.StopChain | kimai2-cmd.js:345-359 | nothing is sent for no targets; otherwise the first target's PATCH comes first, alone when no reply has arrived or when its reply does not resolve; never more stops than targets, nor more than one beyond the replies received |
| Operations.StopChainEndsAtFailure | kimai2-cmd.js:349-353 | when the `k`-th stop is the first whose reply does not resolve, exactly the first `k + 1` PATCHes are sent: the next stop is made only inside the previous one's `then` |
| Operations.Stop | kimai2-cmd.js:313-335 | with a truthy id, exactly that id's PATCH is sent; without one, the GET of the active list comes first |
| Operations.StopWithoutListSendsOnlyGet | kimai2-cmd.js:320-330 | without an id, when the active list does not arrive, only its GET is sent |
| Operations.StopSendsActiveListThenChain | kimai2-cmd.js:320-330 | without an id, once the active list arrives, the GET is followed by what the chain of stops over its entries sends |
| Operations.StopSendsActiveListThenTargets | kimai2-cmd.js:320-359 | without an id, once the active list arrives, the GET is followed by a prefix of the entries' stops in list order |
| Operations.StopWithIdSendsOnePatch | kimai2-cmd.js:315-319 | with a truthy id, stop sends exactly one request, a PATCH to stop that id, whatever the server replies |
| Operations.StopWithNoneActive | kimai2-cmd.js:321-329 | with no id and an empty active list: the GET, then "No active measurements", and no PATCH |
| Operations.StopChainSendsPrefix | kimai2-cmd.js:345-359 | whatever the replies, the stops sent are a prefix of the targets in list order: none skipped, repeated or reordered |
| Operations.StopChainAllResolve | kimai2-cmd.js:345-359 | when every stop resolves, the trace alternates each target's PATCH with its "Stopped:" line, in order |
| Operations.StopAllInListOrder | kimai2-cmd.js:313-359 | with no id and N non-null active entries that all stop, the trace is the GET, then N PATCHes to each entry's id in list order, each followed by its "Stopped:" line |
| Operations.Restart | kimai2-cmd.js:213-220 | restart sends exactly one PATCH to restart the id and prints nothing when it resolves |
| Operations.Start | kimai2-cmd.js:262-282 | start sends exactly one POST with the begin time and the ids; when it resolves it prints "Started: " and the new id |
| Operations.StartWithProject | kimai2-cmd.js:866-871 | the activities GET is always sent; the POST follows only when `findId` found the activity, and it carries the project id and that activity's id |
| Operations.StartByNames | kimai2-cmd.js:859-875 | the projects GET comes first; when the project is not found, nothing else is sent; when it is found, what follows is the second half with the project id that was found |
| Operations.StartWithProjectRequests | kimai2-cmd.js:866-871 | with the activity list delivered, the requests are the GET and then the POST when the activity is found, or the GET alone when it is not |
| Operations.StartByNamesFirstList | kimai2-cmd.js:863-867 | with the project list delivered, only its GET is sent when the project is not found; otherwise that GET is followed by the second half's requests |
| Operations.StartByNamesSecondList | kimai2-cmd.js:859-875 | with the project found and the activity list delivered: both GETs and the POST with both ids when the activity is found, both GETs alone when it is not |
| Operations.StartByNamesRequests | kimai2-cmd.js:859-875 | with both lists delivered: the POST, carrying the ids `findId` found, is sent exactly when both names are found; the activities GET is sent exactly when the project is found |
| Listing.ModeOf | kimai2-cmd.js:420-467 | verbose wins over every other flag, id over argos and argosbutton, argos over argosbutton, and regular mode is exactly no flag set |
| Listing.ElementLines | kimai2-cmd.js:419-467 | a project or activity gives one line; a verbose measurement gives seven lines in a list of several and six in a list of one; every other mode gives at most one line, and none exactly in argos mode on a measurement list other than recent or active |
| Listing.PrintList | kimai2-cmd.js:397-470 | in verbose mode the first line is the count line ("N results:", "One result:" or "No results"); outside verbose mode a non-empty list prints exactly its blocks, one after another |
| Listing.Blocks | kimai2-cmd.js:416-417 | the loop produces exactly one block of lines per element of the list |
| Listing.BlockAt | kimai2-cmd.js:416-469 | block `i` holds the lines for element `i` |
| Listing.ElementLinesDependOnMode | kimai2-cmd.js:418-469 | an element's lines depend on the flags only through the mode they select |
| Listing.PrintListDependsOnlyOnMode | kimai2-cmd.js:397-469 | mode precedence: for a non-empty list, flag settings that select the same mode print the same lines |
| Listing.EmptyListing | kimai2-cmd.js:397-415 | an empty list prints "No results" only when verbose, "No active measurements" only under argos and "Kimai2 \|" only under argosbutton, in that order |
| Listing.CatalogElementLine | kimai2-cmd.js:418-426 | a project or activity line is "(i+1): name (id:ID)" when verbose, "ID: name" in id mode, and the name otherwise |
| Listing.CatalogListing | kimai2-cmd.js:397-426 | projects and activities print one such line per element, in list order, after the verbose count line |
| Listing.RegularElementLine | kimai2-cmd.js:459-467 | a regular-mode measurement line is "project \| activity", preceded by the running time only for an active entry |
| Listing.RegularMeasurementListing | kimai2-cmd.js:416-467 | regular mode prints one such line per measurement, in list order |
| Listing.ArgosElementLine | kimai2-cmd.js:449-455 | an argos line on the recent list offers restart of the entry's id; on the active list it shows the running time and offers stop |
| Listing.ArgosListing | kimai2-cmd.js:416-455 | argos mode on the recent or active list prints one such line per entry, in order |
| Listing.ArgosElsewhereSilent | kimai2-cmd.js:449-455 | argos mode on any other measurement list prints nothing |
| Listing.IdElementLine | kimai2-cmd.js:447-448 | an id-mode measurement line is "ID: project \| activity" |
| Listing.IdMeasurementListing | kimai2-cmd.js:416-448 | id mode prints one such line per measurement, in order |
| Listing.ButtonElementLine | kimai2-cmd.js:456-458 | an argosbutton line is the running time, "project, activity" and the configured button length, for every endpoint and finished or not |
| Listing.ButtonListing | kimai2-cmd.js:416-458 | argosbutton mode prints one such line per measurement, in order |
| Listing.VerboseBlock | kimai2-cmd.js:429-445 | a verbose measurement block is its position line (only for lists of more than one), then Id, Project, Customer, Activity, Begin and Duration; the duration runs to the end when finished, and to now when active |
| Listing.VerboseBlocksUniform | kimai2-cmd.js:429-445 | every verbose block has seven lines in a list of several, and six in a list of one |
| Listing.VerboseListingShape | kimai2-cmd.js:399-405 | in verbose mode, a non-empty listing is its count line followed by the blocks |
| Listing.VerboseSingleListing | kimai2-cmd.js:399-445 | a single measurement prints "One result:" and its six-line block |
| Listing.VerboseMeasurementListing | kimai2-cmd.js:399-445 | N > 1 measurements print "N results:" and then each entry's seven-line block at lines 1+7i to 8+7i |
| Listing.SevenLineBlocks | kimai2-cmd.js:416-445 | after one heading line, seven-line blocks sit at fixed offsets |
| Choices.MeasurementChoices | kimai2-cmd.js:504-516 | no choices (a rejection) exactly for an empty list; otherwise one "project \| activity" choice per entry, in order, answering its id |
| Choices.SelectMeasurement | kimai2-cmd.js:517-526 | picking position `k` answers the id of entry `k` |
| Rainmeter.RainmeterVariables | kimai2-cmd.js:772-799 | nothing is derived exactly when the recent list is empty; otherwise the start/stop hidden flags are complementary and the running flag says whether a measurement is active; the hours are the hours part of the first active entry's formatted duration at the first clock reading, the minutes the minutes part at the second; with nothing active, "No active recording" and empty times; the default id is the first recent entry's |
| Rainmeter.RainmeterShowsDurationOfOneReading | kimai2-cmd.js:782-783 | when the clock does not move between the two readings, hours ":" minutes is the active entry's formatted duration |
| Rainmeter.RainmeterTornReading | kimai2-cmd.js:782-783 | readings one millisecond apart across a full hour show hours and minutes that neither reading's formatted duration gives |
| Rainmeter.RainmeterShowsFirstActiveOnly | kimai2-cmd.js:778-783 | active entries after the first change nothing |
| Rainmeter.RecentMeters | kimai2-cmd.js:798-808 | one meter per recent entry, in order, named MeterRecent<i>, showing "project - activity", with the click action that `ini.unsafe` makes of the text starting that entry's id |
| Rainmeter.StartActionOfPlainId | kimai2-cmd.js:805 | an id without `;`, `#` or `\` reaches the click action unchanged |
| Rainmeter.StartActionCutAtComment | kimai2-cmd.js:805 | an unescaped `;` or `#` in an id cuts the click action there, trailing white space trimmed, losing its closing part |
| IniText.TrimStart | kimai2-cmd.js:805 | `trim` at the front: a suffix that does not start with white space, everything removed being white space |
| IniText.TrimEnd | kimai2-cmd.js:805 | `trim` at the end: a prefix that does not end with white space, everything removed being white space |
| IniText.UnescapeAfterPlain | kimai2-cmd.js:805 | the unescaping walk passes a front without `;`, `#` or `\` through unchanged and continues after it |
| IniText.UnescapeCutsAtComment | kimai2-cmd.js:805 | an unescaped `;` or `#` ends the walk: nothing after it is kept |
| IniText.UnsafeOfFramedPlain | kimai2-cmd.js:805 | a value without special characters, framed by non-space characters, is its own `unsafe` form |
| IniText.UnsafeOfFramedCut | kimai2-cmd.js:805 | in a framed value, an unescaped `;` or `#` leaves the text before it with trailing white space trimmed |
| Rainmeter.SectionNameDeterminesPosition | kimai2-cmd.js:807 | equal section names mean equal positions |
| Rainmeter.RecentMetersHaveDistinctSections | kimai2-cmd.js:798-808 | no two recent meters share a section, so none overwrites another |
| Settings.IniRoots | kimai2-cmd.js:838-845 | the roots in insertion order: pkg, npm, then the Windows installer directory only when `appdata` is set |
| Settings.FirstExisting | kimai2-cmd.js:602-609 | the first candidate that exists, none before it exists; none exactly when no candidate exists |
| Settings.Candidates | kimai2-cmd.js:602-605 | one `settings.ini` path per root, in order |
| Settings.IniPath | kimai2-cmd.js:584-613 | the KIMAI_CONFIG path exactly when it is set and exists; otherwise the first root whose settings.ini exists; false exactly when neither applies |
| Settings.IniPathIgnoresOtherFiles | kimai2-cmd.js:584-613 | creating a file that is neither the KIMAI_CONFIG path nor a candidate does not change the result |
| Settings.FirstExistingAgrees | kimai2-cmd.js:602-609 | file systems that agree on every candidate pick the same one |
| Settings.InstallKind | kimai2-cmd.js:713-736 | Windows installer exactly on win32 with the executable under "Program Files\kimai2-cmd"; pkg exactly otherwise when "snapshot" is one of the first two module-path parts; npm otherwise |
| Settings.IniFullPath | kimai2-cmd.js:713-736 | settings.ini under the install type's root: a Windows installer under the third root, `appdata` joined with "/kimai2-cmd", pkg next to the executable, npm next to the module; no path exactly for a Windows installer without `appdata` |
| Settings.SavedSettingsAreFound | kimai2-cmd.js:699-703 | when no settings file exists and the answers are saved to the full path, looking the settings up again finds the saved file |

## Left out

- HTTP transport and `JSON.parse`: replies are an input (an error reported during set-up, an error reported later, an unparsable body, or a parsed value). Which network errors the HTTP library reports during set-up is not modelled. Request bodies are kept as JSON values, not serialised.
- Promise timing: `callKimaiStop` never resolving the outer promise when there are several entries, and `kimaiList` swallowing rejections. The traces record requests and lines, not settlement.
- The stack trace Node prints when an uncaught exception in a reply callback stops the process; the trace simply ends there.
- Unhandled promise rejections: the traces follow Node before version 15, where an unhandled rejection prints a warning and the process carries on. Node 15 and later exit on it; see the `Lookup.FindId` line below for where this matters.
- Output of `debug`, apart from the count line `printList` prints in verbose mode. `console.log` of an object or array (its inspect form) is modelled as `String()`.
- The date library: parsing `begin`/`end`, time zones and `moment().format()`. The current time is the string `now`, and durations are non-negative whole milliseconds. Negative durations, where "-5" is not padded, are not modelled.
- Duration.DurationParts: the hours component is the hour within the day, as the date library's `hours()` reports it, not the total hours.
- JSON numbers are integers only, and their text has no exponent or fraction form.
- Text.Lower: only the ASCII letters A-Z are lower-cased. `toLowerCase` maps every Unicode upper-case letter, including those that become more than one character ('İ' becomes "i̇").
- Lookup.FindId: names and queries are compared after the ASCII-only `Text.Lower`, so two names that differ only in the case of a non-ASCII letter count as different here but as equal in the client.
- Lookup.FindId: the client's loop has no `break`, so after `resolve(element.id)` it keeps calling `toLowerCase` on the names of later elements. A later `null` element, or one whose name is not a string, throws there, after the lookup has resolved. The promise of that callback then rejects and nothing handles it. The model ends the scan at the first match and takes this rejection as harmless, as Node before version 15 does, where it only prints a warning. From Node 15 on the process exits on it, and the requests that scripted `start` would send next may not go out.
- Lookup.FindIdPrefersEarlierMatch: the same gap: the elements appended after a match do not change the id found, but one without a string name makes the continued scan throw.
- Text.SpaceJoin: `console.log` with several arguments passes the first, when it is a string, to `util.format` as a format string. There, `%s`, `%d`, `%i`, `%f`, `%j`, `%o`, `%O` and `%c` each consume a later argument and `%%` prints one '%'. The model assumes no such directive. A line printed from a single argument is not formatted and is exact. The first argument is a counter, a duration or a fixed prefix in the count, catalog-verbose, argos-active, argosbutton, active-regular and "Stopped:" lines, which holds no '%'. The lines below start with a name, an id or a label containing one, and a '%' there is not modelled.
- Listing.RegularElementLine: a finished entry's line starts with the project name, so a '%' directive in it is expanded by `util.format`; the model joins the names as they are.
- Listing.RegularMeasurementListing: the same `util.format` gap, for every finished entry.
- Listing.ArgosElementLine: a recent-list line starts with "--" and the project name, so the same `util.format` gap applies.
- Listing.ArgosListing: the same `util.format` gap, for the recent list.
- Listing.VerboseBlock: the Project, Customer and Activity lines start with their label and name, so the same `util.format` gap applies.
- Listing.ElementLines: the same `util.format` gap, for the project name, the ids and the labelled lines; the line counts do not depend on it.
- Listing.CatalogElementLine: in id mode the line starts with the id, so an id whose text holds a '%' directive is subject to the same `util.format` gap.
- Listing.IdElementLine: the line starts with the id, so the same `util.format` gap applies.
- Operations.Elements: an object payload is treated as having no elements, even one that has its own `length` property and keys "0", "1", …, which the client's loops would read.
- Operations.Elements: a string payload has one element per Unicode character. JavaScript's `length` counts UTF-16 code units, so a character outside the Basic Multilingual Plane (an emoji, say) counts twice there and its index yields each half of the surrogate pair. A Dafny string cannot hold a lone surrogate, so the model gives such a string fewer elements than the client's loops visit.
- Operations.ElementOfString: the same UTF-16 gap: element `k` is the `k`-th Unicode character, not the `k`-th code unit.
- Operations.Stop: the same gaps for the active list: an object with its own `length` is not stopped entry by entry, and a string with a character outside the Basic Multilingual Plane gets one PATCH to `timesheets/undefined/stop` per Unicode character rather than per UTF-16 code unit.
- Listing.Blocks: printList works on a decoded view of each element (`listview.dfy`), so list payloads that are not arrays are not listed. The TypeErrors raised by missing nested fields (`element.project.name`) are not modelled.
- The list commands (`list-active`, `list-recent`, `list-projects`, `list-activities`) as one trace. The GET is `Operations.ListEvents` and the printed lines are `Listing.PrintList`, but the decoding from the JSON payload to the element view is not modelled.
- The interactive menu, the prompts, `fuzzy` ranking and `commander` parsing, including the interactive start flow. Only the selection rules of the prompts' answers are modelled.
- `ini.parse`/`ini.stringify`, reading and writing files, `mkdirSync`, and `path.join`, which is a parameter. The Rainmeter file output and `String.prototype.replaceAll`.
- IniText.Unsafe: only the branch for a value that is not quoted is modelled. The click action always starts with '[', so the quoted branch, which calls `JSON.parse`, is never taken. The ini library is not part of this model; the walk follows its `unsafe` function.
- Rainmeter.RainmeterVariables: derived from the decoded view of the recent and active lists, after both list calls succeeded. A failure of either list call, which ends `updateRainmeter` before anything is derived, is not modelled. The server URL is kept as configured, without sanitizing, as the client does.
- The `url` command, which prints the configured server URL.
