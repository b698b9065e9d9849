# ops-ntpd: a verified model

ops-ntpd keeps an NTP daemon in step with a switch's configuration database. Operators type
`ntp ...` commands; command handlers change the key table, the association table and the
authentication flag in transactions; a daemon compares those tables with what it sent last and
sends the difference to ntpd; a poller parses what `ntpq` prints and writes it back as status.

This project models those four parts and proves what holds over whole runs and across the parts.
`dafny verify dfyconfig.toml` checks everything.

## How the files fit together

| file | what it holds |
|---|---|
| `Ntpd.dfy` | ntpd as the receiver of commands: associations by address, loaded keys, trusted keys; the treatment of a repeated `server` command is a parameter |
| `CommandText.dfy` | commands and the keys file as text, and how ntpd reads them |
| `Plans.dfy`, `Convergence.dfy`, `KeyAgreement.dfy` | every command list one reconcile may emit, over every walk order, and what it does to ntpd |
| `Projection.dfy` | the row loops that turn tables into the daemon's maps |
| `Daemon.dfy`, `OpsNtpd.dfy` | the daemon as a state machine over whole runs, and as a class with its globals as fields and its loops as methods |
| `Cli.dfy`, `Effects.dfy`, `CommandLine.dfy`, `RunningConfig.dfy` | the commands as a transaction machine, its run invariant and row histories; what the commands do, over the positions of any sequence; the grammar; the running configuration and its replay |
| `TableRows.dfy`, `CliTables.dfy`, `ConfigPrinter.dfy` | the handlers and the printer over database rows, each proved against the transaction machine |
| `SharedRows.dfy` | the association rows that handlers and status writer share, written in any interleaving |
| `EndToEnd.dfy` | typed lines, tables, reconcile, ntpd: the parts composed |
| `StatusSync.dfy` | the queue of snapshots and the process that writes them into the tables |
| `NtpqText.dfy`, `NtpqRecord.dfy`, `NtpqParser.dfy`, `NtpqExample.dfy` | the parser of `ntpq` output, its composition with the status writer, and a record with the real names |
| `Text.dfy`, `Enumerations.dfy`, `Collecting.dfy`, `Unfolding.dfy`, `Wrappers.dfy` | strings, walks over unordered collections, dictionaries filled by a loop that may raise, definitions unfolded on demand, `Option` |

Python's dictionaries and the database's rows have no order of their own. A walk over them is a
sequence that lists each element once, chosen arbitrarily, and every theorem holds for every walk.

Some relations are wrapped in a quantifier that the always-true predicate `Unfolded` triggers.
Nothing is hidden by that: it only lets a proof pass a relation on without looking inside.

## Results where the code falls short of its purpose

* A reconcile leaves ntpd running the new map if and only if the new map asks for one set of
  parameters per address and no address is unconfigured for one entry while an unchanged entry needs
  it (`Convergence.StepConvergesExactly`). The cache is keyed by vrf and address, the commands name
  the address only, so two vrfs with one address break it (`Convergence.SharedAddressIsLost`). The
  command line cannot produce that, because every association belongs to the one vrf.
* The trust commands leave exactly the control key and the new keys trusted if and only if the
  control key is not among the cached keys that go away (`KeyAgreement.TrustConvergesExactly`). A cached
  65535 that goes away takes the control key's trust with it (`KeyAgreement.ControlKeyIsLost`). Ids from
  the command line stay below the control key, so no run gets there.
* The row loops keep variables from one row to the next. The maps they build are row by row
  projections if and only if no eligible row leaves a needed column empty
  (`Projection.KeyProjectionExact`, `Projection.AssocProjectionExact`). A trusted row without a password
  gets the password of the row before it (`Projection.PasswordIsCarriedOver`), and a row without an
  address replaces the record of the row before it (`Projection.AddressIsCarriedOver`).
* The running-configuration printer compares only as many characters of the version as the default
  has. Replay from empty tables rebuilds the association table if and only if no version strictly
  extends "3" (`RunningConfig.RebuildsExactly`). The handlers accept such a version, for instance
  "3x" (`RunningConfig.ExtendedVersionIsLost`); the grammar does not, so replay is exact for everything
  that was typed (`RunningConfig.TypedRoundTrip`).
* At the server limit the handler ends its transaction with a macro that returns success, so the
  error code on the next line is never returned. An `ntp server` that reports success has stored its
  row if and only if the row or room for it was there (`Cli.SuccessIsStored`); of any list of distinct
  names the first eight are stored and every command succeeds (`Cli.FirstEightStay`,
  `Cli.NinthServerIsDropped`).
* A name is accepted if and only if it is valid and has at most 57 characters (`Cli.NameLimit`), so 57
  itself passes (`Cli.LongestName`), although the message asks for fewer than 57.
* An association is looked up by the vrf name given and inserted with the first vrf row. While there is
  room, a repeated `ntp server` keeps one row if and only if those names agree
  (`CliTables.NtpTables.ServerSet`).
* DESIGN.md:129 promises the reference time as `Wed, Jan 13 2016  7:56:26.126`. The parser gives it
  without the comma and with single blanks (`NtpqRecord.StampComesBack`, `NtpqExample.ExampleRecord`); no
  printed time comes back as printed (`NtpqRecord.CommaIsLost`).
* A value is read up to its first equals sign, so it comes back whole if and only if it has none
  (`NtpqRecord.ValueComesBack`).
* A status row behind another row with the same address is never written
  (`StatusSync.SharedAddressIsNeverWritten`). A row that names a host instead of an address gets no
  status (`NtpqParser.ReportReachesRow`).
* One line, record or code that the parser cannot take loses a whole poll: a poll of any output
  succeeds if and only if every line has eleven words, every listed record is legible and every entry
  that stays has known codes (`NtpqParser.PollSucceedsExactly`). A record is legible when each wanted
  name occurs in a field and the first such field holds what is taken from it
  (`NtpqRecord.RecordReadsExactly`).

## Parameters and assumptions

* Whether a key reference is weak (deletion clears it) or strong (deletion is refused) is a parameter;
  all results hold for both. So are ntpd's treatment of a repeated `server` command and the presence
  of a System row.
* Acceptance of a numeric address is an open predicate; only what the code itself fixes is modelled:
  digits and dots (`inet_pton`, section 6.3 of RFC 3493) and no leading `0`.
* Key ids 1..65534, password length 8..16, at most 8 servers, default version "3", control key 65535.
* There is one vrf. Sessions look rows up by the name that it has.
* Commands sent to ntpd arrive, transactions commit, and JSON gives back what was put in.
* Names, passwords and versions contain no white space, as words of a typed line never do. White space
  is blank, tab, newline and carriage return.

## Model

| member | source | states |
|---|---|---|
| Ntpd.PolicyIndependent | ops_ntpd.py:564-586 | if no command of a list conflicts in the state where it arrives, overwriting and ignoring repeated `server` commands give the same service |
| Ntpd.ExecKeepsPastEpochs | ops_ntpd.py:361 | commands keep every incarnation older than the clock and never turn the clock back |
| Ntpd.NewOrSame | ops_ntpd.py:361 | after any commands an association is either a fresh incarnation or untouched |
| Text.AtoiReads | src/cli/ntp_vty.c:203-205 | `atoi`: white space before the number and anything after its digits are ignored, a sign is obeyed |
| CommandText.CommandRoundTrip | ops_ntpd.py:564-585 | reading back the text of any command with white-space-free fields gives the same address, version, key, prefer or key list |
| CommandText.UnconfigSent | ops_ntpd.py:564 | the text that removes an association, letter by letter |
| CommandText.ServerSent | ops_ntpd.py:565-572 | the text of a `server` command, letter by letter, options only when given |
| CommandText.TrustSent | ops_ntpd.py:621-628 | the texts that trust and untrust a list of keys, ids apart by single blanks |
| CommandText.KeyLineWritten | ops_ntpd.py:619-620 | one line of the keys file, letter by letter |
| CommandText.ExecTextIsExec | ops_ntpd.py:351-361 | a batch sent as text changes ntpd as the list of commands means |
| CommandText.KeysFileRoundTrip | ops_ntpd.py:282-284 | reading the generated keys file, comment and blank lines skipped, loads exactly the control key and the cached keys, for every cache and order, the empty one included |
| CommandText.ReadFileText | ops_ntpd.py:619-634 | a keys file is its header, the control line and the key lines, each read on its own |
| OpsNtpd.RenderingsAgree | ops_ntpd.py:565-585 | the added and the revised rendering of a keyed record are the same text, and it reads back as the record |
| OpsNtpd.AddTextRenders | ops_ntpd.py:565-572 | the text put together piece by piece is the rendering of the record's `server` command |
| OpsNtpd.DeleteTexts | ops_ntpd.py:564 | the deletion loop emits one `unconfig` per deleted key, in order |
| OpsNtpd.AddConfig | ops_ntpd.py:566-571 | one record's text, option by option, is its `server` command |
| OpsNtpd.AddTexts | ops_ntpd.py:565-572 | the addition loop emits the `server` command of every added key, in order |
| OpsNtpd.ReviseConfig | ops_ntpd.py:576-585 | one keyed record's two texts are its `unconfig` and its `server` command |
| OpsNtpd.ReviseTexts | ops_ntpd.py:574-585 | the revise loop visits exactly the keyed associations, in any order, and emits an `unconfig` and a `server` for each |
| OpsNtpd.WriteKeysFile | ops_ntpd.py:619-634 | the file lists the control key and every cached key once, in some order |
| OpsNtpd.TrustConfigs | ops_ntpd.py:621-633 | exactly the texts of at most one `unconfig trustedkey` and one `trustedkey` command, in that order, none for an empty list |
| OpsNtpd.OpsNtpd.constructor | ops_ntpd.py:55-71 | the globals start as the initial state of a run, with ntpd holding the control key only |
| OpsNtpd.OpsNtpd.CheckAssociations | ops_ntpd.py:515-588 | the walk that changes the cached map as it goes leaves it equal to the new map and emits revise, delete and add commands of a plan from the old map to the new |
| OpsNtpd.OpsNtpd.CheckKeys | ops_ntpd.py:591-635 | the three emptiness branches together: cache is the new one, untrusted is old minus new, trusted is all of new, the keys file lists the new cache |
| OpsNtpd.OpsNtpd.SyncUpdates | ops_ntpd.py:345-364 | keys file and `readkeys` take effect first, then all commands in order |
| OpsNtpd.OpsNtpd.CheckUpdatesFromOvsdb | ops_ntpd.py:638-725 | succeeds exactly when no row loop reads an unset variable, and then performs one reconcile of the replica, flag change included |
| OpsNtpd.OpsNtpd.IdlRun | ops_ntpd.py:837 | arriving commits move the replica and the sequence number, and keep the run invariant |
| OpsNtpd.OpsNtpd.StartNtpd | ops_ntpd.py:846-854 | a fresh ntpd is brought from its default files to the replica's configuration |
| OpsNtpd.OpsNtpd.ProvisionIfConfigured | ops_ntpd.py:841-855 | a changed replica starts ntpd exactly when it says the system is configured |
| OpsNtpd.OpsNtpd.Provision | ops_ntpd.py:828-855 | one provisioning iteration keeps the run invariant and loses no commit |
| OpsNtpd.OpsNtpd.PollOrReconcile | ops_ntpd.py:957-964 | an unchanged sequence number means a status poll, a changed one a reconcile that is then marked as seen |
| OpsNtpd.OpsNtpd.Serve | ops_ntpd.py:953-964 | one main-loop iteration keeps the run invariant and loses no commit |
| OpsNtpd.OpsNtpd.MainLoop | ops_ntpd.py:952-964 | any number of iterations do |
| OpsNtpd.OpsNtpd.RunLoops | ops_ntpd.py:940-964 | however commits are grouped into `idl.run` calls, afterwards the caches and ntpd equal the projection of the last snapshot, or nothing says configured yet |
| Convergence.PlanAddresses | ops_ntpd.py:586 | for any maps at all, the addresses served after a step, as set algebra |
| Convergence.NoConflictingServer | ops_ntpd.py:564-586 | in no intermediate state does a `server` command meet other parameters at its address, for every order, flag and policy |
| Convergence.StepIsPolicyIndependent | ops_ntpd.py:564-586 | the service after a step does not depend on the repeated-`server` policy |
| Convergence.StepConvergesExactly | ops_ntpd.py:530-588 | ntpd runs the new map after a step if and only if the new map is consistent per address and loses no address |
| Convergence.InjectiveMapsConverge | ops_ntpd.py:342-343 | maps that use each address once meet that condition |
| Convergence.StepConverges | ops_ntpd.py:530-588 | for such maps every plan converges and leaves keys and trust alone |
| Convergence.SharedAddressIsLost | ops_ntpd.py:564 | for every address and pair of vrfs, removing one of two entries silences the other |
| Convergence.CommandCount | ops_ntpd.py:530-586 | removed + inserted + 2 changed commands, plus 2 per keyed association when the flag changed |
| Convergence.UnchangedIsNotNamed | ops_ntpd.py:544-548 | without a flag change no command names an unchanged association's address |
| Convergence.SecondStepIsSilent | ops_ntpd.py:540-548 | reconciling the same map again emits nothing |
| Convergence.ReestablishedExactly | ops_ntpd.py:574-586 | the incarnations that survive a step are exactly the unchanged ones, less the keyed ones when the flag changed; all others are made anew in this step |
| KeyAgreement.TrustEffect | ops_ntpd.py:609-635 | the trust commands remove old minus new and add new, and trust only loaded keys if the new ids are loaded |
| KeyAgreement.TrustConvergesExactly | ops_ntpd.py:609-635 | control key and old keys become control key and new keys, if and only if the control key is not dropped from the cache |
| KeyAgreement.ControlKeyIsLost | ops_ntpd.py:609-635 | dropping a cached key with the control key's id leaves nothing trusted |
| KeyAgreement.PlanTrustsNothing | ops_ntpd.py:586 | server commands touch neither loaded nor trusted keys |
| KeyAgreement.ReadBack | ops_ntpd.py:354-356 | after `readkeys` exactly the control key and the new cache are loaded |
| KeyAgreement.DeliveryConverges | ops_ntpd.py:354-362 | after a delivery associations, loaded keys and trusted keys agree with the new caches, and every key was loaded when it became trusted |
| KeyAgreement.DeliveryIsSafe | ops_ntpd.py:354-362 | the same three facts for one delivery over address-injective maps |
| Projection.ReadAuthentication | ops_ntpd.py:655-662 | the loop ends with the value stored in the last System row that has the flag, "false" if none has |
| Projection.LastFlagIsRead | ops_ntpd.py:655-662 | the same of the function that the reconcile is stated with |
| Projection.CheckSystemStatus | ops_ntpd.py:757-773 | configured exactly when some row's `cur_cfg` is not zero |
| Projection.RecordSays | ops_ntpd.py:694-716 | a record's columns are the row's, ".LOCL.", "false" and "3" standing for attributes left out |
| Projection.ProjectKeys | ops_ntpd.py:674-686 | the key loop with its carried variables, failing where one is read unset |
| Projection.ProjectAssocs | ops_ntpd.py:694-716 | the association loop with its carried address |
| Projection.KeyProjectionExact | ops_ntpd.py:674-686 | one entry per eligible row, made from that row alone, if and only if no eligible row leaves id or password empty |
| Projection.PasswordIsCarriedOver | ops_ntpd.py:674-686 | a trusted row without a password is stored with the password of the row before it |
| Projection.KeyProjectionUnordered | ops_ntpd.py:674 | with complete rows and unique ids the loop computes the same map from the rows in any order |
| Projection.AssocProjectionExact | ops_ntpd.py:694-716 | one entry per row, made from that row alone, if and only if no row leaves its address empty |
| Projection.AddressIsCarriedOver | ops_ntpd.py:694-716 | a row without an address replaces the record of the row before it |
| Projection.AssocProjectionUnordered | ops_ntpd.py:694 | with complete rows and unique pairs the loop computes the same map from the rows in any order |
| Daemon.GoodTablesProject | ops_ntpd.py:672-716 | tables as the command line makes them never make a loop read an unset variable |
| Daemon.ProjectionIsOk | ops_ntpd.py:672-716 | and give address-injective, well-keyed maps without the control key |
| Daemon.ReconcileSyncs | ops_ntpd.py:638-725 | a reconcile from a faithful state makes caches and ntpd equal the projection of the tables, through the text that is sent |
| Daemon.ReconcileIsSafe | ops_ntpd.py:351-362 | inside a reconcile every trusted key is loaded when its command runs, no `server` command conflicts, and the control key stays, at every single command |
| Daemon.ReconcileExists | ops_ntpd.py:638-725 | whenever no row loop reads an unset variable a reconcile can be carried out |
| Daemon.NextPreserves | ops_ntpd.py:828-964 | every step of the daemon and of the database keeps the run invariant |
| Daemon.BehaviourInvariant | ops_ntpd.py:940-964 | it holds in every state of every run |
| Daemon.WholeRunSimulation | ops_ntpd.py:940-964 | whenever ntpd is started and the sequence numbers agree, always so at the main loop's head and across the hand-over, caches and ntpd equal the projection of the replica; a configured replica is never left waiting |
| Daemon.StartsOnlyConfigured | ops_ntpd.py:838-854 | in no state of any run is ntpd started before a received snapshot said configured |
| Daemon.NoNewsNoCommands | ops_ntpd.py:953-964 | in no run does a step start ntpd, send it anything or touch the caches while the replica has not changed since the last one |
| Daemon.ReachesMainHead | ops_ntpd.py:828-964 | from every state of every run whose replica or database says configured, steps of the daemon alone reach the main loop's head with every commit seen |
| Daemon.TrustFollowsTables | ops_ntpd.py:658-689 | at the main loop's head loaded ids, trusted ids and rows agree: control key, and the trusted rows only with authentication on |
| Daemon.RunsAreSafe | ops_ntpd.py:940-964 | every change of ntpd in every run is one such safe delivery |
| Daemon.ControlKeyStaysTrusted | ops_ntpd.py:67 | between the steps of any run the control key is trusted and loaded with its password; `Daemon.RunsAreSafe` says the same inside a reconcile |
| Cli.SetServerKeepsInv | src/cli/ntp_vty.c:492-547 | `ntp server` keeps the run invariant, at the server limit too |
| Cli.DeleteKeyKeepsInv | src/cli/ntp_vty.c:269-279 | key deletion leaves no dangling reference, for weak and strong references |
| Cli.ApplyKeepsInv | src/cli/ntp_vty.c:234-547 | every command keeps ranges, lengths, limit and referential integrity |
| Cli.RunKeepsInv | src/cli/ntp_vty.c:234-547 | so does every command sequence |
| Cli.ReachableInv | src/cli/ntp_vty.c:433-547 | every state reached from empty tables satisfies the run invariant |
| Cli.NameLimit | src/cli/ntp_vty.c:437-447 | names are accepted exactly when valid and at most 57 characters long |
| Cli.ServerStoredExactly | src/cli/ntp_vty.c:433-547 | on any tables, after an `ntp server` its association is there if and only if it was there before, or name, key and version are in range, the key exists and fewer than eight are there |
| Cli.LongestName | src/cli/ntp_vty.c:438-440 | 57 letters are stored, 58 are not |
| Cli.SuccessIsStored | src/cli/ntp_vty.c:509-546 | success of `ntp server` means the row is there if and only if it was there or there was room |
| Cli.FirstEightStay | src/cli/ntp_vty.c:470-521 | of any list of distinct acceptable names exactly the first eight are stored |
| Cli.EveryPlainServerSucceeds | src/cli/ntp_vty.c:516-521 | and each of those commands reports success |
| Cli.NinthServerIsDropped | src/cli/ntp_vty.c:516-521 | a run in which a ninth server reports success and is not stored |
| Cli.RowAfterLast | src/cli/ntp_vty.c:413-425 | what one more command does to a living row: overlay, loss of a deleted key, or nothing |
| Cli.AssocHistory | src/cli/ntp_vty.c:371-425 | a row's version and key are the last given since its insertion (default if none, no key once that key was deleted) and prefer is set exactly if some command gave it |
| Effects.OutcomeExactly | src/cli/ntp_vty.c:200-547 | the return code of every command on any tables: success, a refused deletion, a missing key, an argument out of range |
| Effects.FailureChangesNothing | src/cli/ntp_vty.c:200-547 | a command that fails changes nothing |
| Effects.NamesExactly | src/cli/ntp_vty.c:100-145 | a name of digits and punctuation only has to be a numeric address that does not begin with `0`; every other name is good |
| Effects.AssocIsThere | src/cli/ntp_vty.c:492-547 | after any commands an address is in the table if and only if its last stored `ntp server` comes after its last `no ntp server` |
| Effects.KeyIsThere | src/cli/ntp_vty.c:235-283 | a key is there if and only if its last accepted `authentication-key` comes after its last deletion that took effect |
| Effects.PasswordIsLast | src/cli/ntp_vty.c:235-283 | its password is the last one given |
| Effects.TrustIsLast | src/cli/ntp_vty.c:285-317 | it is trusted if and only if its last mark since its last deletion was the positive form |
| Effects.FlagIsLast | src/cli/ntp_vty.c:71-97 | the flag is what the last `ntp authentication enable` form said; without a System row it stays off |
| Effects.ServerFrame | src/cli/ntp_vty.c:505-546 | both forms of `ntp server` leave every other row, all keys and the flag alone |
| Effects.KeyFrame | src/cli/ntp_vty.c:235-317 | a password or a mark leaves every other key, all rows and the flag alone |
| Effects.DeletionFrame | src/cli/ntp_vty.c:269-279 | a deletion leaves every other key and the flag alone, and clears exactly the references to the deleted key |
| Effects.FlagFrame | src/cli/ntp_vty.c:71-97 | the flag command stores its argument in the flag and changes nothing else |
| CommandLine.LineParsesExactly | src/cli/ntp_vty.c:861-1014 | a line is a command if and only if its words spell that command: every positive and `no` form, options in any order and each at most once |
| CommandLine.OptionsParseExactly | src/cli/ntp_vty.c:863-864 | the words after the server name parse to given options if and only if they are those options in some order, each at most once, numbers in range |
| CommandLine.RangeExactly | src/cli/ntp_vty.c:864 | of the numbers in decimal exactly those of the range are accepted |
| CommandLine.LinesAreCommands | src/cli/ntp_vty.c:861-1014 | typing lines runs the commands among them |
| CommandLine.ParsedLineTyped | src/cli/ntp_vty.c:861-1014 | whatever line is typed, the command's fields are words and its numbers are in the grammar's ranges |
| CommandLine.RunLinesKeeps | src/cli/ntp_vty.c:861-1014 | every state reached by typing satisfies the run invariant, with plain version numbers |
| CommandLine.OptionsRoundTrip | src/cli/ntp_vty.c:863-864 | options printed in the printer's order parse back to the same options |
| CommandLine.PrintRoundTrip | src/cli/ntp_vty.c:861-1014 | typing a printed command means that command, in every form, the `no` forms included |
| RunningConfig.ReplayKeys | src/cli/ntp_vty.c:235-317 | replayed key commands all succeed and merge into any key table |
| RunningConfig.ReplayAssocs | src/cli/ntp_vty.c:360-547 | replayed `ntp server` commands all succeed while there is room for them and overlay their rows |
| RunningConfig.ReplayConfig | src/cli/vtysh_ovsdb_ntp_context.c:56-83 | a whole configuration replays without failure into tables with no other associations |
| RunningConfig.RebuildsExactly | src/cli/vtysh_ovsdb_ntp_context.c:56-83 | replay from empty tables succeeds throughout and rebuilds the keys; it rebuilds the associations if and only if no version strictly extends the default |
| RunningConfig.ExtendedVersionIsLost | src/cli/vtysh_ovsdb_ntp_context.c:71-75 | version "3x" is accepted by the handler, and replay does not rebuild its row |
| RunningConfig.ReplayIsFixedPoint | src/cli/vtysh_ovsdb_ntp_context.c:64-83 | replay into the same state changes nothing, with any versions and with the table full |
| RunningConfig.VersionTokensArePlain | src/cli/ntp_vty.c:864 | a version the grammar accepts that starts with the default is the default |
| RunningConfig.TypedRoundTrip | src/cli/vtysh_ovsdb_ntp_context.c:56-83 | as text: after any typed lines, the printed configuration typed into empty tables rebuilds both tables, and typed into the same tables changes nothing |
| CliTables.HasAllDigitsLoop | src/cli/ntp_vty.c:101-111 | true exactly for names of digits and punctuation |
| CliTables.IsValidServerName | src/cli/ntp_vty.c:133-145 | such names must be addresses, all others are accepted |
| CliTables.SanitizeName | src/cli/ntp_vty.c:437-447 | the length and validity checks, in order |
| CliTables.SanitizeVersion | src/cli/ntp_vty.c:457-465 | versions must evaluate to 3 or 4 |
| CliTables.FindKeyRow | src/cli/ntp_vty.c:150-167 | a row with the id, or there is none |
| CliTables.FindAssocRow | src/cli/ntp_vty.c:322-350 | a row with the vrf and address, or there is none |
| CliTables.NtpTables.constructor | src/cli/ntp_vty.c:58-60 | empty tables over one vrf; the status of a new row will be "-" in every column |
| CliTables.NtpTables.GetAuthKey | src/cli/ntp_vty.c:150-167 | the walk finds the one row of an id exactly when the key exists |
| CliTables.NtpTables.GetAssoc | src/cli/ntp_vty.c:322-350 | the walk finds the one row of a name exactly when it exists and the vrf name asked for is the rows' |
| CliTables.NtpTables.SanitizeAuthKey | src/cli/ntp_vty.c:199-232 | range, existence and password length, in order, with the row when asked for |
| CliTables.NtpTables.AuthEnableSet | src/cli/ntp_vty.c:71-97 | writes "true" or "false" under `authentication_enable` of the System row and nothing else; without a System row it warns and changes nothing |
| CliTables.NtpTables.AuthKeySet | src/cli/ntp_vty.c:234-283 | inserts a key or replaces its password, trust kept, as the transaction machine does |
| CliTables.NtpTables.AuthKeyUnset | src/cli/ntp_vty.c:234-283 | deletes a key as the transaction machine does |
| CliTables.NtpTables.RemoveKey | src/cli/ntp_vty.c:272-274 | weak references are cleared, strong ones make the transaction fail |
| CliTables.NtpTables.TrustedKeySet | src/cli/ntp_vty.c:285-317 | marks or unmarks an existing key |
| CliTables.NtpTables.SanitizeServer | src/cli/ntp_vty.c:432-468 | name, key and version checks in order, with the key's row |
| CliTables.NtpTables.CheckMaxNumberOfServers | src/cli/ntp_vty.c:470-490 | counting rows tells exactly whether there is room |
| CliTables.NtpTables.ServerSet | src/cli/ntp_vty.c:492-547 | the handler in both forms, over rows, does what the transaction machine does when the vrf names agree or the address is new; otherwise `no` removes nothing, and a repeated command with room keeps one row if and only if the names agree |
| CliTables.NtpTables.StoreServer | src/cli/ntp_vty.c:505-546 | lookup, limit, insert, delete or overlay, with names that agree and with names that do not |
| CliTables.NtpTables.InsertAssoc | src/cli/ntp_vty.c:371-425 | a new row is the defaults overlaid by the options given; no other row changes |
| CliTables.NtpTables.ReplaceAssoc | src/cli/ntp_vty.c:413-425 | an existing row is overlaid; address, vrf and status stay |
| CliTables.NtpTables.DeleteAssoc | src/cli/ntp_vty.c:536-538 | one row goes, the others stay |
| CliTables.NtpTables.Execute | src/cli/ntp_vty.c:861-1014 | every command form reaches its handler with the right parameters |
| CliTables.NtpTables.Session | src/cli/ntp_vty.c:861-1014 | a whole session ends in the state of the transaction machine |
| CliTables.NtpTables.WriteStatuses | ops_ntpd_sync_to_ovsdb.py:102-111 | a snapshot gives the named rows their status and leaves the configuration as it is |
| CliTables.NtpTables.Interleaved | ops_ntpd_sync_to_ovsdb.py:102-133 | commands and snapshots in any order: the configuration is what the commands alone make of it, the statuses what the snapshots report of the rows |
| SharedRows.NewRowIsBlank | src/cli/ntp_vty.c:386-411 | a new association has the initial status until a snapshot reports on it |
| SharedRows.WrittenIsRowsAfter | ops_ntpd_sync_to_ovsdb.py:86-111 | what a snapshot does to these rows is what the status writer does to them, in any walk order |
| SharedRows.CommandsKeepStatus | src/cli/ntp_vty.c:360-425 | however often a living association is overlaid meanwhile, its status is the last one reported for its address |
| CliTables.NtpTables.PrintRunningConfig | src/cli/vtysh_ovsdb_ntp_context.c:42-86 | the printer emits the running configuration of the tables, each row once, in some order |
| ConfigPrinter.PrintKeyRow | src/cli/vtysh_ovsdb_ntp_context.c:56-62 | a key row's lines are its commands |
| ConfigPrinter.PrintAssocRow | src/cli/vtysh_ovsdb_ntp_context.c:65-83 | the option buffer and the line are the row's `ntp server` command |
| ConfigPrinter.PrintKeyRows | src/cli/vtysh_ovsdb_ntp_context.c:56-62 | the key loop |
| ConfigPrinter.PrintAssocRows | src/cli/vtysh_ovsdb_ntp_context.c:65-83 | the association loop |
| TableRows.NewRow | src/cli/ntp_vty.c:371-411 | a new row has its address and vrf, the default attributes and the initial status |
| TableRows.NewStatusIsBlank | src/cli/ntp_vty.c:386-408 | the initial status has exactly the fourteen columns, each "-" |
| TableRows.OverlayRow | src/cli/ntp_vty.c:413-425 | the options given replace, the rest of the row stays |
| TableRows.ShowsDeleteKey | src/cli/ntp_vty.c:272-274 | deleting a key row keeps rows and transaction machine in step |
| TableRows.ShowsPutAssoc | src/cli/ntp_vty.c:524-541 | storing an association row does |
| EndToEnd.FlagIsRead | ops_ntpd.py:655-662 | from a replica that shows what the handlers wrote, in any row order, the daemon reads the flag that was set |
| EndToEnd.TablesReplicate | ops_ntpd.py:655-716 | a replica of the handlers' tables, in any row order, says what the transaction machine says |
| EndToEnd.ReplicaTablesOk | src/cli/ntp_vty.c:433-547 | the command line's invariant discharges everything the daemon needs of its tables, unique addresses included |
| EndToEnd.SyncedMirrorsTables | ops_ntpd.py:692-725 | a daemon in step with such tables makes ntpd serve exactly the association rows and trust exactly the trusted key rows |
| EndToEnd.LinesThenReconcile | ops_ntpd.py:692-725 | after any typed lines and one reconcile, ntpd's associations are exactly the table's rows and its keys the trusted rows |
| EndToEnd.JointIsBehaviour | ops_ntpd.py:940-964 | when every commit holds the tables that typed lines made, the daemon's part is a run over good commits: the command line discharges what the daemon assumes |
| EndToEnd.JointMirrors | ops_ntpd.py:950-964 | in every joint run of operator, database and daemon, at the main loop's head ntpd serves and trusts exactly what the lines seen ask for, all lines once every commit has arrived |
| EndToEnd.JointProgress | ops_ntpd.py:828-964 | every joint run whose replica or database says configured can be continued by the daemon alone until ntpd serves and trusts exactly what all the typed lines ask for |
| StatusSync.TransactionMgr.constructor | ops_ntpd_sync_to_ovsdb.py:62-80 | the process starts from the committed tables |
| StatusSync.TransactionMgr.FindRowByIpAddr | ops_ntpd_sync_to_ovsdb.py:86-100 | the first row with the address, or no row has it |
| StatusSync.TransactionMgr.UpdateRowInAssociationTable | ops_ntpd_sync_to_ovsdb.py:102-111 | every named row that its address finds takes its status, all others stay, in any dictionary order |
| StatusSync.TransactionMgr.UpdateSystemTable | ops_ntpd_sync_to_ovsdb.py:113-122 | the first System row takes status and statistics, each in its own column; without one the call raises |
| StatusSync.TransactionMgr.UpdateInfo | ops_ntpd_sync_to_ovsdb.py:124-133 | all of a snapshot is committed, or nothing |
| StatusSync.TransactionMgr.Run | ops_ntpd_sync_to_ovsdb.py:137-152 | the queue loop commits the snapshots before the first shutdown, in order |
| StatusSync.Untouched | ops_ntpd_sync_to_ovsdb.py:102-111 | a row not named before the shutdown, or hidden by an earlier row, keeps its status |
| StatusSync.LastStatusWins | ops_ntpd_sync_to_ovsdb.py:102-111 | the row an address finds holds the status of the last message before the shutdown that names it |
| StatusSync.SystemHoldsLast | ops_ntpd_sync_to_ovsdb.py:113-122 | the System row holds status and statistics of the last message before the shutdown, each in its own column; the other System rows are left alone |
| StatusSync.EndingExactly | ops_ntpd_sync_to_ovsdb.py:137-152 | a run raises if and only if its first message is a snapshot and there is no System row; otherwise it stops if and only if a shutdown is queued |
| StatusSync.NothingAfterShutdown | ops_ntpd_sync_to_ovsdb.py:142-143 | what follows the shutdown has no effect |
| StatusSync.DrainedThen | ops_ntpd_sync_to_ovsdb.py:141-150 | one more snapshot at the end of a queue is one more commit |
| StatusSync.StatusWriteBack | ops_ntpd_sync_to_ovsdb.py:86-152 | with unique addresses, all of this for every row and the System row, over any queue that ends in a shutdown |
| StatusSync.SharedAddressIsNeverWritten | ops_ntpd_sync_to_ovsdb.py:95-99 | of two rows with one address the later is never written |
| NtpqText.StripPadded | ops_ntpd.py:379 | stripping padded text gives the text |
| NtpqText.JoinOfLines | ops_ntpd.py:400 | splitting at line breaks and joining with blanks replaces each break by a blank |
| NtpqText.FirstWith | ops_ntpd.py:402 | the first piece that contains a name |
| NtpqRecord.PiecesComeBack | ops_ntpd.py:400-401 | the pieces read are the pieces written, line breaks become blanks |
| NtpqRecord.FoundAt | ops_ntpd.py:402-411 | the search stops at the first field that mentions a name |
| NtpqRecord.StampComesBack | ops_ntpd.py:407-409 | the reference time, split at its own comma, comes back as its words, whatever white space was between them |
| NtpqRecord.CommaIsLost | ops_ntpd.py:407-409 | no reference time comes back with the comma that it was printed with |
| NtpqRecord.ValueComesBack | ops_ntpd.py:403-406 | a printed value comes back up to its first equals sign, so whole if and only if it has none |
| NtpqRecord.RecordReadsExactly | ops_ntpd.py:398-411 | a text is read if and only if each wanted name occurs in a piece, the first such piece holds an equals sign where a value is taken, and the reference time has a next piece to join |
| NtpqRecord.RecordRoundTrip | ops_ntpd.py:398-411 | from any record in which no earlier field mentions a wanted name, whatever its other fields, padding and spacing, the parser recovers selection, root dispersion, source address, reference id and reference time, each up to its first equals sign |
| NtpqExample.ExampleRecord | ops_ntpd.py:402-411 | a record with the names the code searches for and a padded one-digit hour meets the conditions and is read |
| Collecting.CollectAll | ops_ntpd.py:380-394 | a loop that files each round's value under its key ends with exactly the pairs computed, when no key comes twice |
| Collecting.CollectByWalk | ops_ntpd.py:397-419 | the same when the rounds visit the ids in an order of their own |
| Collecting.CollectFails | ops_ntpd.py:501-512 | one round that raises loses the whole dictionary |
| Collecting.CollectSucceeds | ops_ntpd.py:501-512 | and the loop completes exactly when no round raises |
| Collecting.CollectedValues | ops_ntpd.py:394-419 | a completed loop holds for each key the value of the last round with that key |
| NtpqParser.ReadPeers | ops_ntpd.py:379-394 | the peer loop builds the table by association id, failing on a short line |
| NtpqParser.JoinRecords | ops_ntpd.py:396-419 | the record loop files under each source address a peer with its record: reference id the line's if it begins with a dot and the record's otherwise, other columns the line's |
| NtpqParser.EntriesCanBeTold | ops_ntpd.py:83-102 | translation loses nothing: equal entries come from equal columns and record values |
| NtpqParser.TranslateEntries | ops_ntpd.py:421-453 | every entry with each column under its own name and both codes looked up, or none if a code is unknown |
| NtpqExample.SelectionWords | ops_ntpd.py:86-95 | the word shown for each selection code, and no other code is known |
| NtpqExample.KindWords | ops_ntpd.py:96-104 | the same for the peer types |
| NtpqParser.GetAssociationsInfo | ops_ntpd.py:367-455 | the whole poll, for some order of the ids |
| NtpqParser.PeersComeBack | ops_ntpd.py:380-394 | the peer table has exactly one row a printed line |
| NtpqParser.PollInvertsPrinting | ops_ntpd.py:379-453 | well-formed output gives a result if and only if every code is known, and then one entry a report column by column: the words of the peer line by position, the values of the record, the codes looked up, dotted reference ids taken from the line |
| NtpqParser.PollSucceedsExactly | ops_ntpd.py:379-453 | a poll of any output succeeds if and only if every line has eleven words, every listed record is legible and every entry that is not replaced has known codes |
| NtpqParser.ShortLineLosesPoll | ops_ntpd.py:383-392 | one short line loses the whole poll |
| NtpqParser.MessageReachesRow | ops_ntpd.py:502-508 | the message of a poll sets the status of exactly the rows whose address it names, and leaves the others; the System row gets the poll's own status and statistics |
| NtpqParser.ReportReachesRow | ops_ntpd.py:421-453 | after a poll the status of a row with a reported address has exactly the fourteen named keys, each with its word of the line, value of the record or looked-up code; a row that no report is about keeps what it had |

## Left out

- Process handling, shell execution, file writes, sleeps, signals, clean-up of old processes and `hwclock`: I/O. Only the order of their logical effects is kept.
- The `exiting` flag, unixctl, argument parsing, daemonising, logging, event log, diagnostics dump, schema registration and CLI installation: plumbing.
- The output of `show ntp ...`: user-interface tables.
- The choice of the control password: any white-space-free string.
- OVSDB and IDL internals: tables are rows with identities, the replica is the last snapshot that arrived, transactions succeed except that a strong reference refuses a key deletion.
- The `sysstats` part of a poll (ops_ntpd.py:458-489): a plain lookup of ten labelled lines.
- opsplugins/ntp_association.py and the device-driven scripts: no state of their own.
- Ntpd.Step: ntpd is modelled by what these commands do to it; its configuration file, its default associations and its resolution of names to addresses are not part of this model.
- Text.Atoi: `atoi` of a number that does not fit the C type is not modelled; the grammar's ranges exclude it for typed lines.
- ConfigPrinter.PrintAssocRow: the printer's 80-character option buffer is an unbounded string; options the grammar accepts without leading zeros fit it.
- CliTables.NtpTables.PrintRunningConfig: the printer emits neither the authentication flag nor `ref_clock_id` nor status, so the round trip covers keys, passwords, trust, addresses, key references, versions and prefer.
- CliTables.NtpTables.ServerSet: the messages printed to the operator are not modelled; return codes are. After a second row for one address nothing further is claimed of the handlers.
- Cli.AssocHistory: edits of the tables by other database clients are not part of a history.
- Projection.ProjectKeys: Python's run-time error on an unset variable is a failed result after which nothing is claimed about the daemon.
- OpsNtpd.OpsNtpd.RunLoops: the endless loops run over a finite list of `idl.run` deliveries, which is arbitrary.
- OpsNtpd.OpsNtpd.SyncUpdates: all arguments of one `ntpq` call arrive in order; quoting by the shell is not modelled.
- StatusSync.TransactionMgr.Run: the row set and the walk order of the tables stay fixed during a run (rows come and go in `CliTables.NtpTables.Interleaved`), and the queue is a finite list after which the process waits.
- NtpqParser.PollInvertsPrinting: of output whose two header lines are missing, or whose peers share an id or a source address, only success and failure are characterised (`NtpqParser.PollSucceedsExactly`).
