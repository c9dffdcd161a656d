# dnsmasq-web: a verified model

dnsmasq-web lets several people, and optionally an agent, edit one shared text
file, `dnsmasq.conf`, from the browser. This project models the parts on which
the safety of that file rests, and proves what they promise for all inputs and
all runs:

- **The line-preserving store** (`ConfText`, `Filtering`, `ConfEdits`,
  `ConfStore`). `ConfStore.ConfFile` is a growing array of parsed lines edited
  in place: shifting inserts and deletes, and compaction through a slice that
  aliases the one being read. Each method is proved against an edit on the list
  of raw lines, and the edits are characterised by lemmas. `HandWritten` says how
  lines that people wrote are read and that comments survive every edit.
- **Upstream switching** (`Upstreams`) is a client of that store with a
  back-to-front deletion loop; `ForwarderToml` is the forwarder's settings file
  and `ForwarderLines` its lines as people write and read them.
- **Writing and serving** (`ConfWriter`, `Requests`, `Server`): validate, back
  up, write a temporary file, rename. The disk is observed after every system
  call, so statements about all observed states cover every point at which the
  process can die. `Reload` and `Conditions` say when the promises of the editing
  interface hold, `Answers` which status every request gets and what it then left
  on disk.
- **Concurrency** (`Protocol`, `Guarantees`, `Backups`, `Alone`): requests as
  processes that take the lock, plan their write and go through the pipeline one
  system call at a time, with readers, backup deletions, faults and crashes in
  between. `Alone` shows that every call of a handler is such a process, with the
  same disk and the same answer.
- **Sessions and login throttle** (`Auth`, `AuthRuns`) and the **agent gate**
  (`Mcp`, `McpRuns`), as classes and as properties of whole runs, for the gate
  with any number of requests in flight.
- **The browser's form composers** (`Csv`, `Composers`, `DhcpRange`,
  `DhcpHost`, `DomainServers`), with `Boxes` on which box shows what, and the
  in-place **lease table** (`LeaseTable`).

## How to read it

The revision hash is a function `string -> string`; where a result needs it to
be free of collisions, `Injective(digest)` is an explicit hypothesis. `dnsmasq
--test` is an arbitrary predicate on content, the session id source an
argument, the clock a non-decreasing argument in nanoseconds. The regular
expressions that classify form fields are parameters, so the composer results
hold for every classification tried in the code's order.

These promises hold only under a condition. Each condition is proved exact, and
an input that fails it is given.

- The project's own README (line 59) says untouched lines are reproduced byte
  for byte. The code drops a carriage return at a line end and completes the
  last line: `ConfText.RoundTripExact`, `ConfText.CarriageReturnIsLost`.
- An accepted edit reloads to the lines, and the revision, that were in memory
  exactly when no line it leaves alone ends in a carriage return
  (`Reload.EditReloads`, `Reload.EditKeepsRevision`, in whole runs
  `Guarantees.EditsReload`), as the line of `a\r\r\n` does
  (`Reload.DoubleReturnIsLost`).
- The last toggle of the upstreams alone decides the file, written and read in
  between, exactly when no line that toggles leave alone ends in a carriage return
  (`Reload.LastToggleWinsOnDisk`, `Reload.ToggleTrimsAgain`).
- A raw save protects what its author read exactly when it carries a `rev`
  (`Conditions.RevGuardExact`, over whole runs `Alone.LostUpdateExactly`), a line
  edit exactly when it carries the text of the line, so a blank line cannot be
  protected (`Conditions.LineGuardExact`, over whole runs `Alone.LineGuardExactly`).
- An accepted edit leaves a readable file exactly when the line it wrote fits the
  scanner's buffer (`Conditions.EditReadable`). Otherwise the file is replaced,
  the client gets 500, and no handler can load the file any more
  (`Alone.CommittedYetUnreadable`). A request that was committed and answered with
  500 is always such a case, or one whose final reload failed
  (`Guarantees.AnswersTellTheTruth`); an upstream switch can also end in 500 because
  a service does not restart, which is not modelled.
- Two settings commute except when both create their key
  (`ConfEdits.ScalarsCommute`, `ConfEdits.CreationOrderShows`), and a setting
  after a removal is not the setting alone unless the entry stood last
  (`ConfEdits.ScalarAbsorbs`, `ConfEdits.RemovalForgetsPlace`).
- `dhcp-host` loses a field exactly when a single-valued box is filled twice
  (`DhcpHost.HostKeepsFieldsExactly`), as with an IPv4 and an IPv6 address
  (`DhcpHost.SecondAddressOverwrites`); the `server` form changes a value exactly
  when it is not `Faithful` (`DomainServers.ServerRoundTrip`), as `//x`
  (`DomainServers.EmptyScopeIsLost`).
- The agent's write switch is read once, when a request enters
  (`McpRuns.GateDecidesOnEntry`); a write already past it reaches its handler
  even if the switch goes off meanwhile (`McpRuns.WriteInFlight`).

## Model

| member | source | states |
|---|---|---|
| ConfText.RenderParses | internal/dnsmasq/conf.go:58-94 | a directive rendered for a valid key parses back to that key, flag and trimmed value, whatever the value contains |
| HandWritten.CommentSaysNothing | internal/dnsmasq/conf.go:58-64 | a line whose first visible character is # has no key and is no upstream |
| HandWritten.SpacedDirective | internal/dnsmasq/conf.go:60-71 | whatever blanks stand before, behind and around key, equals sign and value, a directive is read as its key and its trimmed value, and only the first equals sign counts |
| HandWritten.SpacedFlag | internal/dnsmasq/conf.go:65-67 | a key alone between blanks is a flag |
| HandWritten.SilentSurvivesScalar | internal/dnsmasq/conf.go:199-224 | setting or clearing a value leaves every comment and blank line, in order |
| HandWritten.SilentSurvivesFlag | internal/dnsmasq/conf.go:226-248 | so does switching a flag |
| HandWritten.SilentSurvivesAdd | internal/dnsmasq/conf.go:131-151 | so does adding a directive |
| HandWritten.SilentSurvivesToggle | internal/api/encdns.go:280-306 | so does switching the upstreams |
| HandWritten.NamesRefused | internal/api/server.go:349-361 | no accepted key holds an equals sign, comment sign, blank, line break, quote or other separator |
| HandWritten.NamesTaken | internal/api/server.go:351-361 | names of letters, digits, hyphens and underscores are accepted |
| HandWritten.LongestLine | internal/dnsmasq/conf.go:44-54 | a one-line ASCII file can be loaded exactly up to 1,048,575 characters |
| HandWritten.LongestWideLine | internal/dnsmasq/conf.go:44-54 | with characters of two, three or four bytes the buffer holds exactly 524,287, 349,525 and 262,143 |
| HandWritten.BlankCharacters | internal/dnsmasq/conf.go:60-67 | exactly these 25 characters are trimmed |
| HandWritten.BlanksDiffer | static/app.js:131-140 | the server trims a next-line sign that the browser keeps as a field; with a byte-order mark it is the other way round |
| ConfText.RoundTripExact | internal/dnsmasq/conf.go:32-82 | loading and serializing is the identity on exactly the texts that are empty or newline-terminated and hold no CR LF pair |
| ConfText.CarriageReturnIsLost | internal/dnsmasq/conf.go:45-82 | a text with CR LF changes although no line was edited |
| ConfText.ReloadExact | internal/dnsmasq/conf.go:45-82 | serializing and loading gives the same lines exactly when no line holds a newline or ends in a carriage return |
| ConfText.SameRevSameLines | internal/dnsmasq/conf.go:84-87 | with a collision-free hash, equal revisions mean equal line sequences |
| ConfEdits.AddedMeaning | internal/dnsmasq/conf.go:131-151 | adding appends one entry to its key, makes it the value in force (last wins) and leaves the sequence of all other lines as it was |
| ConfEdits.AddedPlace | internal/dnsmasq/conf.go:136-145 | the new line goes directly below the last line of its key, or else to the end |
| ConfEdits.AddedKeepsOtherKeys | internal/dnsmasq/conf.go:134-151 | the entries of every other key stay what they were |
| ConfEdits.AddThenDelete | internal/dnsmasq/conf.go:134-195 | deleting at the returned index, guarded or not, restores the previous file |
| ConfEdits.GuardedReplace | internal/dnsmasq/conf.go:153-181 | an update that passes a non-blank guard trades exactly one copy of the guarded text for the new line |
| ConfEdits.GuardedDelete | internal/dnsmasq/conf.go:183-195 | a deletion that passes a non-blank guard removes exactly one copy of the guarded text |
| ConfEdits.ScalarSet | internal/dnsmasq/conf.go:197-224 | a set leaves one entry for the key, with the trimmed value, at the old first position or else last; all other lines stay in order |
| ConfEdits.ScalarCleared | internal/dnsmasq/conf.go:199-203 | a blank value removes every entry of the key and no other line |
| ConfEdits.ScalarAbsorbs | internal/dnsmasq/conf.go:199-224 | a later set absorbs an earlier one; after a removal only if the later is a removal too or nothing followed the entry |
| ConfEdits.RemovalForgetsPlace | internal/dnsmasq/conf.go:199-224 | a file on which removing and setting anew differs from setting alone |
| ConfEdits.ScalarsCommute | internal/dnsmasq/conf.go:199-224 | sets on different keys commute exactly unless both create a new key |
| ConfEdits.CreationOrderShows | internal/dnsmasq/conf.go:199-224 | two new keys set on an empty file stay in the order in which they were set |
| ConfEdits.FlagMeaning | internal/dnsmasq/conf.go:226-248 | a flag is present afterwards exactly if switched on; nothing else changes; setting twice is setting once |
| ConfStore.LoadConf | internal/dnsmasq/conf.go:32-56 | loading gives a valid store of the file's lines, an empty one for a missing file, and fails exactly on an open or read error or a line too long for the buffer |
| ConfStore.ConfFile.Reindex | internal/dnsmasq/conf.go:96-101 | restores the class invariant: contiguous positions, every line the parse of its text, the revision that of the text |
| ConfStore.ConfFile.SerializeText | internal/dnsmasq/conf.go:75-82 | the loop builds the text of the raw lines, whatever the parsed parts say |
| ConfStore.ConfFile.EntriesOf | internal/dnsmasq/conf.go:104-112 | returns the entries of the key in file order, each with its true position |
| ConfStore.ConfFile.ScalarOf | internal/dnsmasq/conf.go:116-123 | the backward loop finds the value of the last occurrence, or none |
| ConfStore.ConfFile.AddLine | internal/dnsmasq/conf.go:134-151 | the overlapping shift yields the inserted line list and the returned line carries its index; the invariant is kept |
| ConfStore.ConfFile.UpdateLine | internal/dnsmasq/conf.go:155-165 | refuses a missing index or a failed guard without a change, else replaces that one line |
| ConfStore.ConfFile.UpdateRawLine | internal/dnsmasq/conf.go:169-182 | as UpdateLine, and refuses line breaks after the guard |
| ConfStore.ConfFile.DeleteLine | internal/dnsmasq/conf.go:185-195 | the shift down removes exactly the guarded line |
| ConfStore.ConfFile.RemoveAll | internal/dnsmasq/conf.go:239-248 | compaction into the slice being read keeps exactly the other lines, in order |
| ConfStore.ConfFile.KeepFirst | internal/dnsmasq/conf.go:204-215 | the aliased loop drops every entry but the first and reports its index |
| ConfStore.ConfFile.SetScalar | internal/dnsmasq/conf.go:199-224 | the whole operation equals the keep-one replacement on raw lines, or the removal for a blank value |
| ConfStore.ConfFile.SetFlag | internal/dnsmasq/conf.go:227-237 | adds the flag once, or removes all its lines |
| Upstreams.DeleteGlobals | internal/api/encdns.go:288-297 | the back-to-front loop never meets a refused deletion and removes exactly the unscoped server lines |
| Upstreams.RewriteServers | internal/api/encdns.go:280-306 | the loop and the grouped inserts equal the rewrite on raw lines, to 127.0.0.1#5053 when encryption goes on and to the plain addresses when it goes off |
| Upstreams.RewrittenMeaning | internal/api/encdns.go:278-306 | afterwards the unscoped servers are exactly the requested ones in order; every other line keeps text and relative order |
| Upstreams.ToggleMeaning | internal/api/encdns.go:288-304 | with encryption on, the unscoped servers of the file are 127.0.0.1#5053 alone; with it off, the plain addresses in order |
| Upstreams.ProviderAddresses | internal/api/encdns.go:35-39 | switching encryption off leaves the two addresses of the provider, in order |
| HandWritten.SpacedServer | internal/api/encdns.go:288-297 | however it is spaced out, a server line is replaced by a toggle exactly if its value does not begin with a slash |
| Upstreams.LastToggleWins | internal/api/encdns.go:280-306 | for all files and providers the last toggle alone decides the file |
| Reload.LastToggleWinsOnDisk | internal/api/encdns.go:280-306 | with the file written and loaded in between, the last toggle alone decides it if and only if no line that toggles leave alone ends in a carriage return |
| Reload.ToggleTrimsAgain | internal/api/encdns.go:280-306 | a file on which it does not |
| ForwarderToml.SetKeySets | internal/api/encdns.go:142-153 | afterwards the key is set, and every line that sets it says the new value |
| ForwarderToml.SetKeyTouches | internal/api/encdns.go:142-153 | changed are the lines that set the key, or else the first commented one, or else one line is added on top |
| ForwarderToml.SetKeyAbsorbs | internal/api/encdns.go:142-153 | a later setting absorbs an earlier one, so each call is idempotent |
| ForwarderToml.SetTomlKeyAbsorbs | internal/api/encdns.go:142-153 | the same on the text: the later of two settings of a key alone decides it |
| ForwarderToml.SetKeyKeepsOther | internal/api/encdns.go:155-166 | setting one key leaves what another says |
| ForwarderToml.ProviderRoundTrip | internal/api/encdns.go:120-173 | whatever the text held, after the three calls the provider read back is the one written, in any order of trying providers |
| ForwarderToml.LastProviderWins | internal/api/encdns.go:155-173 | for every text and any two providers, writing one after the other gives the text that the last alone gives |
| ForwarderLines.SetLineParts | internal/api/encdns.go:143-143 | a line counts as setting a key only if it is the key, blanks and an equals sign |
| ForwarderLines.SetLine | internal/api/encdns.go:143-143 | every such line does |
| ForwarderLines.CommentLineParts | internal/api/encdns.go:147-147 | a line counts as the commented key only if that stands behind a comment sign and blanks |
| ForwarderLines.CommentLine | internal/api/encdns.go:147-147 | every such line does |
| ForwarderLines.ProviderSettings | internal/api/encdns.go:155-167 | after a switch the file names the provider, listens on 127.0.0.1:5053 and leaves caching off, in exactly these lines and in no other line for those keys |
| ForwarderLines.ReadsList | internal/api/encdns.go:125-129 | of several lists for a key the first is read, with blanks around the equals sign, up to the first closing bracket |
| ForwarderLines.ReadsOverLines | internal/api/encdns.go:125-129 | a hand-written list may go over any number of lines |
| ForwarderLines.EitherQuote | internal/api/encdns.go:130-139 | a provider in the list counts in single or in double quotes |
| ConfWriter.Writer.WriteRaw | internal/dnsmasq/writer.go:30-73 | the result and the exact disks it leaves for every fault, a check that cannot be run counting as a rejection; each disk has the old live file, or the new one after validation and a complete backup; other backups are untouched |
| ConfWriter.Writer.CreateBackup | internal/dnsmasq/writer.go:75-88 | never touches the live file; on success the backup holds all of it, and a missing file needs none |
| ConfWriter.Writer.RestoreBackup | internal/dnsmasq/writer.go:147-157 | installs the named backup with the crash safety of any write, or leaves the live file as it was; a backup that is missing, unreadable or rejected changes nothing at all |
| ConfWriter.RestoreUndone | internal/dnsmasq/writer.go:145-157 | the backup taken by a restore is found again under its name and holds the earlier file, even if time stamps repeat |
| ConfWriter.RestoreAndUndo | internal/dnsmasq/writer.go:145-157 | two successful restore calls, the second of the backup the first one took, give back the earlier file; without a fault the second fails only if validation rejects that file |
| Answers.BackupLookup | internal/dnsmasq/writer.go:123-133 | a backup is looked up by the last part of the path it is given, slashes at the end or not, and found exactly if that ends in .bak and is in the directory |
| Conditions.EditReadable | internal/dnsmasq/conf.go:45-54 | after an accepted edit the file loads exactly if the line it writes fits the scanner's buffer, or it writes none |
| Conditions.LongLineLocksOut | internal/api/server.go:326-338 | an edit that is accepted and written, after which every load fails and the answer is 500 |
| Conditions.RevGuardExact | internal/api/server.go:488-499 | a raw save is accepted only over the lines its author saw exactly when it carries the revision of them |
| Conditions.LineGuardExact | internal/dnsmasq/conf.go:155-195 | over all files, a line edit is applied only to the text its author saw exactly when it names that text and the text is not blank, or no file can make it apply |
| Requests.EditOrigin | internal/api/server.go:351-474 | every line after an accepted edit was there before or is the one written line, which has no line break |
| Reload.EditReloads | internal/api/server.go:326-340 | the file reloads to the lines just written exactly when no line the edit leaves alone ends in a carriage return |
| Reload.EditKeepsRevision | internal/api/server.go:334-339 | with a collision-free hash the revision sent out is the one computed in memory exactly under the same condition |
| Reload.DoubleReturnIsLost | internal/dnsmasq/conf.go:45-82 | a file and an edit of another line after which memory and disk differ |
| Reload.EditExact | internal/api/server.go:308-341 | the same for an edit of a text; files without double carriage returns at a line end stay so |
| Requests.GuardedEdit | internal/api/server.go:394-432 | an accepted line edit with a guard changes the multiset of lines by exactly the guarded text and the new one |
| Server.Handlers.MutateConf | internal/api/server.go:308-341 | load, edit, serialize, write and reload answer as planned, for each fault exactly: a refusal changes nothing, success installs the edited file |
| Server.Handlers.PutRaw | internal/api/server.go:476-516 | a raw save with a stale revision is refused; one answered 200 left the content that was sent on disk, with a newline behind it only where one was missing |
| Server.Handlers.SwitchUpstreams | internal/api/encdns.go:280-306 | the locked part of the toggle leaves the old file, or answers 200 and installs it rewritten to the forwarder alone or to the plain addresses |
| Server.StatusMeaning | internal/api/server.go:308-341 | 400, 409 and 422 leave the disk as it was; 200 means the planned content is live; any change passed validation and left a backup; without a fault an accepted request is answered 500 exactly when its result is unreadable |
| Requests.PutRawInstalls | internal/api/server.go:485-487 | what a raw save installs ends in a newline, begins with the content sent, and is that content if it ended in one |
| Requests.WrittenText | internal/dnsmasq/conf.go:89-94 | an edit writes key=value, the bare key of a flag, or the raw text that was sent |
| Answers.RawAnswer | internal/api/server.go:485-516 | without a fault a raw save is answered 409 exactly if its revision is not that of the file, else 422 or written; 500 only for a file that cannot be loaded |
| Answers.EditAnswer | internal/api/server.go:308-432 | without a fault, which of 400, 409, 422, 500 and 200 an edit gets, in the order of the tests, and what is then on disk |
| Answers.FaultAnswer | internal/api/server.go:326-337 | the answer to every fault: a check that cannot be run is a rejection, any other fault before the rename an error, and neither changes the live file; after the rename only handlers that reload notice |
| Answers.CannotOpen | internal/api/server.go:308-317 | a file that cannot be opened stops every request that starts from it, after the checks of the request itself |
| Answers.SavesUnopened | internal/api/server.go:488-500 | a raw save without a revision never opens it, and goes through |
| Answers.BackupTaken | internal/dnsmasq/writer.go:57-88 | every answer 200 left the replaced file under its stamped backup name, no other backup touched and no temporary file |
| Answers.FirstDirective | internal/dnsmasq/conf.go:32-43 | on a machine without the file the first directive creates it, with that line alone |
| Answers.RestoreAnswer | internal/dnsmasq/writer.go:147-157 | without a fault a restore succeeds exactly if the backup is found and passes the check |
| Answers.SwitchAnswer | internal/api/encdns.go:280-306 | a switch answered 200 left a text whose lines name the servers asked for and are otherwise the old ones; any other answer left the old file |
| Answers.SwitchesHold | internal/api/encdns.go:280-306 | in every run a committed switch wrote that over the lines of the very file it replaced |
| Protocol.RenameStep | internal/dnsmasq/writer.go:68-72 | whatever runs beside it, the rename installs the content its own process staged, over the file that process read |
| Protocol.StepKeeps | internal/api/server.go:308-341 | every step of every process, reader or crash keeps the invariant: one process in the critical section, its plan made on the present file, every answer true to what was committed |
| Protocol.LockIsReleased | internal/api/server.go:308-341 | in every reachable state the holder of the lock can answer its request and release the lock by at most eight steps of its own |
| Guarantees.Linearizable | internal/api/server.go:308-341 | in every run the live file is the initial one changed by the committed requests in turn, each computed from the very file it replaced |
| Guarantees.AnswersTellTheTruth | internal/api/server.go:318-340 | a request answered 400, 409 or 422 committed nothing, one answered 200 committed itself, none commits twice; a committed one is answered 500 exactly if it is an edit or raw save whose result is unreadable or whose reload failed |
| Guarantees.UnreadableExactly | internal/api/server.go:326-338 | in every run a committed edit left an unreadable file exactly if it wrote a line that does not fit the buffer |
| Guarantees.StaleExactly | internal/api/server.go:488-499 | a save is refused as stale exactly when the lines differ from those its author read |
| Guarantees.NoLostUpdate | internal/api/server.go:476-516 | in every run a save with a revision replaced a file with exactly the lines its author had read, by the content sent |
| Guarantees.SavesWhatWasSent | internal/api/server.go:476-516 | in every run a committed raw save wrote what was sent, at most a newline added |
| Guarantees.EditsHitTheirTarget | internal/api/server.go:394-432 | in every run a guarded line edit took away one copy of the text it named from the file it replaced and added the new one |
| Guarantees.EditsReload | internal/api/server.go:326-340 | in every run the file after an edit reloads to the edited lines and their revision if and only if no line the edit kept ends in a carriage return; files without such line ends stay so |
| Backups.BackupSurvives | internal/dnsmasq/writer.go:75-88 | in every run, crashes and faults included, a backup is complete if it was the last action to touch its own name |
| Guarantees.ReplacedIsKept | internal/dnsmasq/writer.go:57-88 | so each replaced content is in its backup, whatever happens to other backups |
| Guarantees.NothingIsLost | internal/dnsmasq/writer.go:57-88 | in every run without deletions and with backup names used once, every replaced content is complete in a backup |
| Guarantees.NoTornReads | internal/dnsmasq/writer.go:68-72 | in every run a reader gets the initial file or one left by a commit, never part of a write |
| Alone.WriterIsOneProcess | internal/dnsmasq/writer.go:57-88 | for every fault, the disks WriteRaw leaves are those of a run of one process, in order |
| Alone.HandlerIsOneProcess | internal/api/server.go:308-341 | every call of a handler, whatever the request, the file and the fault, is a run of one process with the same disk and the same answer |
| Alone.LostUpdateExactly | internal/api/server.go:476-516 | a raw save never, in any run, replaces lines its author has not seen exactly when it carries the revision it was given |
| Alone.LineGuardExactly | internal/dnsmasq/conf.go:155-195 | in every run a guarded line edit hits only the line its author saw; where validation accepts everything an unguarded one hits another line in some run |
| Alone.CommittedYetUnreadable | internal/api/server.go:326-338 | a run without any fault in which an edit is committed, answered 500, and locks out every later save with a revision |
| Auth.AuthManager.Login | internal/api/auth.go:64-96 | what a login does to both tables, with the lockout answered first and capacity kept |
| Auth.AuthManager.ValidSession | internal/api/auth.go:98-116 | accepts exactly unexpired ids and slides their expiry; drops expired ones |
| Auth.AuthManager.Logout | internal/api/auth.go:130-136 | removes exactly that id and keeps the capacity invariant |
| Auth.AuthManager.PruneLocked | internal/api/auth.go:138-155 | terminates under the expiry invariant; drops all expired sessions and evicts only the oldest, no more than needed |
| AuthRuns.SessionTable | internal/api/auth.go:23-155 | in every run the table holds at most 100 ids, each expiring one lifetime after its last use |
| AuthRuns.IdleTimeout | internal/api/auth.go:98-116 | an id in the table is accepted exactly within a lifetime of its last use |
| AuthRuns.CheckEnds | internal/api/auth.go:98-116 | a check keeps an accepted id for thirty more days and takes an expired one out; the empty id is never accepted |
| AuthRuns.LogoutEnds | internal/api/auth.go:130-136 | in every run a logout takes out its own id, and leaves the others and their expiries |
| AuthRuns.LoggedOut | internal/api/auth.go:98-136 | after a logout no check accepts the id until a login issues it again |
| AuthRuns.EvictsLeastRecentlyUsed | internal/api/auth.go:138-155 | an unexpired id lost without logout was evicted by a login while 99 other live ids had been used at least as recently |
| AuthRuns.ThrottleRecord | internal/api/auth.go:66-85 | the stored record is the number of evaluated failures modulo five and the lock of the last full round, however addresses interleave |
| AuthRuns.ThrottleBound | internal/api/auth.go:66-85 | wrong password number f from an address comes at least 60 s times f/5 after the first; the stored count stays below five |
| AuthRuns.RightPassword | internal/api/auth.go:66-96 | in every run the right password opens a session exactly if fewer than five wrong ones were counted or the last round of five ended a minute ago |
| AuthRuns.WrongOpensNothing | internal/api/auth.go:70-85 | a wrong password, or any in the lock window, opens and closes no session |
| AuthRuns.OtherAddress | internal/api/auth.go:70-84 | other addresses and attempts in the lock window leave a record alone |
| Mcp.Tracker.Serve | internal/api/server.go:163-202 | no tagged write passes while the switch is off, no tagged request reaches the switch, only an operator's order moves it, and all displayed figures are those of the request history |
| Mcp.Tracker.Record | internal/api/mcp.go:42-56 | counts the call and keeps the newest 25, newest first |
| Mcp.StepExpected | internal/api/mcp.go:42-68 | how one request changes total, blocked count, newest calls and switch of a history |
| Mcp.SwitchIsLastOrder | internal/api/mcp.go:131-147 | the switch stands where the last untagged order put it, whatever tagged requests follow |
| McpRuns.GateDecidesOnEntry | internal/api/mcp.go:100-123 | with any number of requests in flight, a tagged request gets through exactly if it is no POST, PUT or DELETE under /api/, or validates, or the switch was on when it entered and it is not under /api/mcp/; otherwise it is refused for good |
| McpRuns.OnlyOperatorsMoveSwitch | internal/api/mcp.go:65-68 | in every run the switch moves only when an order without the client header is handled, to where the order says |
| McpRuns.ReadOnlyMode | internal/api/mcp.go:100-123 | once the switch is off, every tagged write that enters is refused until an operator's order is handled |
| McpRuns.WriteInFlight | internal/api/server.go:178-193 | a write that was past the gate when the switch went off still reaches its handler |
| McpRuns.Accounting | internal/api/mcp.go:42-56 | in every run total and blocked count the tagged requests recorded and those refused, and the list shown is the newest 25 calls, newest first |
| McpRuns.SerialIsServe | internal/api/server.go:163-202 | a request with nothing in between shows what Tracker.Serve shows |
| Csv.SplitLoop | static/app.js:131-140 | the loop with its quote flag yields the quote-aware fields, trimmed |
| Csv.SplitJoin | static/app.js:131-141 | splitting undoes joining for trimmed fields with commas only inside quotes, with or without a blank after the comma |
| Csv.RoundTrip | static/app.js:131-141 | splitting a joined list gives its non-empty fields |
| Boxes.QuotedComma | static/app.js:131-140 | a comma between quotes does not separate fields |
| Csv.NormalFormIdempotent | static/app.js:131-141 | normalising twice is normalising once and keeps the non-empty fields, for every string, unclosed quotes included |
| Csv.CellsOfJoinCSV | static/app.js:141-141 | a value built from balanced pieces has exactly the fields of the pieces, in order |
| Composers.CnameKeepsOrder | static/app.js:275-286 | cname can be rebuilt exactly from two fields up, and keeps all fields in place, a trailing TTL included |
| Boxes.CnameInOrder | static/app.js:275-286 | aliases, target and a trailing number stand each in their own box |
| Composers.ParseOption | static/app.js:493-503 | the parsing loop fills the boxes as specified |
| Composers.OptionIsStablePartition | static/app.js:493-508 | dhcp-option is rebuilt with its tags first and all other fields in their order, and can be rebuilt exactly if there is one besides tags |
| Boxes.OptionBoxesInOrder | static/app.js:493-508 | tags, encapsulation prefixes with the option, and values stand each in their own box, in order |
| DhcpRange.TakeTags | static/app.js:165-171 | the loop separates tag: and set: fields, both in order |
| DhcpRange.Parse | static/app.js:426-448 | the order-dependent loop fills the boxes as specified |
| DhcpRange.SlotIsFree | static/app.js:430-444 | no field is ever put where another already is |
| DhcpRange.RangeKeepsEveryField | static/app.js:426-453 | a range with a recognisable start is rebuilt with exactly its non-empty fields; without one it is refused |
| Boxes.RangeInOrder | static/app.js:430-453 | start, end, netmask and lease time behind their tags stand each in its own box, and building gives the same text |
| Boxes.BroadcastInOrder | static/app.js:430-453 | the same with a broadcast address |
| Boxes.PrefixInOrder | static/app.js:434-453 | the same for an IPv6 range with a prefix length, a bare number up to 128 |
| Boxes.NumberIsLease | static/app.js:434-438 | a bare number after an IPv4 start, or above 128, is a lease time |
| Boxes.DecimalNumber | static/app.js:436-436 | the number is decimal; Boxes.ZerosInFront adds that zeros in front do not count |
| Boxes.ShortRangeInOrder | static/app.js:430-453 | start, end and lease time without a netmask, and back |
| Boxes.ModeBoxes | static/app.js:433-446 | each of the eight modes stands where an end address would |
| Boxes.EndAndMode | static/app.js:433-446 | the box of the end address shows the address first, then the modes |
| Boxes.EarlyLease | static/app.js:432-444 | a lease time in front of the addresses is left over and kept, not taken for the lease time |
| Boxes.LeftoversLast | static/app.js:449-454 | left-over fields are built behind all others, in order |
| Boxes.TagsReadBack | static/app.js:449-454 | whatever is built of a range form has exactly its tags read back as tags |
| Boxes.FormsRefused | static/app.js:281-508 | a form is refused exactly if a required box is blank, or a field among the tags of a range is no tag |
| DhcpHost.Parse | static/app.js:464-479 | the order-dependent loop fills the boxes as specified |
| DhcpHost.ReadsBack | static/app.js:464-485 | reading the fields in the order in which they are built gives the same form |
| DhcpHost.HostIsCanonical | static/app.js:464-485 | for every accepted balanced value, parsing what was built gives the form that was parsed |
| Boxes.HostInOrder | static/app.js:464-485 | hardware addresses, tags, address, name, lease time and ignore stand each in their own box, and building gives the same text |
| Boxes.InBrackets | static/app.js:474-474 | what stands in brackets is an address, unless a line end stands among it |
| DhcpHost.HostKeepsFieldsExactly | static/app.js:464-485 | the fields are conserved if and only if there is at most one address, one lease time after the host name and one ignore |
| DhcpHost.LastAddressWins | static/app.js:464-485 | for every host name and every two addresses, rebuilding keeps only the second address |
| DhcpHost.SecondAddressOverwrites | static/app.js:464-485 | a host with an IPv4 and an IPv6 address loses the first |
| DomainServers.ServerRoundTrip | static/app.js:156-188 | the server form gives a value back exactly when its domains are there, none is blank, they read as separate fields, and nothing surrounds the address |
| Boxes.ServerBoxes | static/app.js:156-183 | a scoped server shows its domains, comma separated, and its address; Boxes.PlainServerBox has the unscoped one |
| DomainServers.EmptyScopeIsLost | static/app.js:156-188 | the value //x becomes an unscoped x |
| LeaseTable.Render | static/app.js:1264-1296 | the in-place update ends with one row per lease in lease order, with its cells; a key that had a row keeps that object, and only new keys get new rows |
| LeaseTable.KeepOrder | static/app.js:1291-1293 | a row is moved, if need be, directly behind the row placed before it, and the rows in place stay |
| LeaseTable.RemoveUnseen | static/app.js:1295-1295 | removing unseen rows leaves exactly the rows of the leases |

## Left out

- HTTP, JSON, cookies, templates, constant-time comparison and random numbers; a session id is an argument of `Login`.
- systemctl, journalctl and DNS probes, so also the restarts around an upstream switch and the statuses they cause.
- The event hub (internal/api/sse.go): bounded queues with easy members only.
- Editors other than the console, which do not take the lock; the concurrency results cover console requests.
- ConfStore.LoadConf: open and read errors are one flag of the call; at which byte a read fails makes no difference.
- Power loss: nothing is synced to disk by the source, and a crash is modelled as the death of the process.
- Go maps are iterated in an unspecified order; loops over them pick any remaining element.
- Text is a sequence of code points; bytes that are not UTF-8 are not modelled. The scanner's limit counts UTF-8 bytes.
- ForwarderToml.SetKeySets: the replacement text is taken literally, because the three values written hold no `$`.
- File modes, file times, directory listings and the download of a backup.
- Protocol.StepKeeps: a backup on demand is one step, complete or cut short, because it holds the lock throughout.
- Mcp.Tracker.Serve: one request is served at a time, McpRuns has them overlap; the counters are unbounded integers.
- McpRuns.Accounting: the time shown with a call is a property of the request, so nothing is said about clocks.
- Composers other than cname, dhcp-option, dhcp-range, dhcp-host and server: they assign fixed positions and would add easy members.
- LeaseTable.Render: duplicate lease keys, the filter box, sorting, animations and click handlers; `cells` stands for the rendered text.
- The directive registry, lease files, lookups, the resolver check and the rest of the user interface.
