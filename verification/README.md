# A verified model of authnd

authnd serves people and groups, read from a configuration file and from other
directories, over LDAP and Kerberos. This project models in Dafny what it decides
itself, and proves what its documentation and its tests promise of those decisions.
`dafny verify dfyconfig.toml` checks the whole of it.

**The snapshot protocol** (`Protocol*.dfy`). A refresh reads every source into a new
snapshot and swaps it in only if no password was written meanwhile; a password change
proves the old password without a lock, writes the file under a lock, rebuilds the file's
people and swaps; readers load the snapshot with no lock, twice in one operation.
`Protocol` is a transition system with any number of threads, one step for each atomic
load, store, lock and unlock; every choice the code does not make is in the step.
`ProtocolInvariants`, `ProtocolFreshness` and `ProtocolChanges` hold the inductive
invariants, `ProtocolTheorems` what follows for every run, `ProtocolAccess` who gets as far
as the file and what the others are told, `ProtocolReads` what a refresh reads, and
`ProtocolRuns` some runs written out. `Reload` is the write path
as it runs, a class whose methods are proved against the functions the protocol uses, and
`PasswordRequests` what a request asks for, `Names` whom a DN names. `Rosters` is the index
of people under it: fold keys, name clashes and the folded lookup of a token bind.

**The publication pipeline** (`Schemas`, `Declared`, `LeftOff`, `Validated`, `Entries`,
`Shapes`, `Rebuild`, `Rdns`, `People`, `Withdrawal`, `Withheld`, `Groups`, `Structure`,
`Publication`). An entry's classes follow from what somebody has, and from the auxiliary
classes their source declares. It is held to the schema, rebuilt once without the classes it cannot carry, and relieved once of
the attributes nothing allows. The question the proofs settle is that once is enough, and
exactly when it is not (`Withdrawal`, `Withheld`). `Samples` is a schema and a parser of DNs,
and `Validators` a validator for any schema, that meet what is assumed of them; `Instances`
are the inputs for which something fails.

**Small machines**: the startup race (`Startup`), the cap on pending checks
(`PendingChecks`), the certificate store (`Certs`), codes counted behind a password
(`Factors`).

**Printers, parsers and arithmetic**: OAUTHBEARER credentials (`OAuthBearer`), the factors
of a token (`TokenFactors`), SIDs and RIDs (`Samba`), the site's schema (`SiteSchema`,
`SchemaBlocks`); `Text` takes strings apart.

## What the proofs found

- One rebuild is not always enough: a person can be withheld for a MUST that the first build
  met and the rebuild took away, with a class the content rule refuses that the server had
  derived. Either a declared class that stays requires `sshPublicKey`, `sambaSID` or
  `sambaNTPassword` (`Instances.BobIsWithheld`), or the content rule itself requires one of
  these, or `cn` (`Instances.KimIsWithheld`). `Withheld.OneRebuildIsNotEnough` says exactly
  when, of the person and the schema alone. Groups are never affected
  (`Groups.RebuiltGroupMust`, `Groups.GroupRuleMust`).
- The DN is put together with nothing escaped, so a name it does not parse to is refused:
  a person `a+mail=b`, a group `a+ou=b` (`Instances.NameWithAPlus`,
  `Instances.GroupWithAPlus`). `People.RdnOfPeople` and `Groups.RdnOfGroups` are the exact
  conditions. config.go:287 takes any `base_dn` with a `=` in it; under one that is no DN
  nobody is published (`Instances.NobodyUnderABadSuffix`). A person with an `sn` is also refused where the content rule of
  `inetOrgPerson` precludes `uid` (`Instances.UidPrecludedForCarol`).
- structure.go:50-55 says an RDN the data made different never gets past the schema to the
  structure rules. It does where a source gives its values, `uid` under another of its
  names (`Instances.EveIsRefusedForHerName`); where none gives a `uid` it does not
  (`Publication.PassedIsNamed`).
- `leftOff` does not always name the content rule (declared.go:244-257): `rules` is filled
  from the classes the rule refuses, not from declared classes left off for a superclass of
  their own, so a class below one of those is said to go with an empty rule name. The model
  keeps this; `Withdrawal.WhichRuleIsNamed` says exactly when, and
  `Instances.LowIsSaidWithoutTheRule` is a person it happens to.
- The certificate store tells two files apart by a stamp that is the same for every file it
  cannot read and for every one past a megabyte. So a new pair that loads but is past that
  size is not noticed, forced or not, once one like it was served
  (`Certs.LongFilesAreMistaken`), and when both files go away right after a load nothing is
  logged (`Certs.BothGoneIsSilent`). `Certs.LookServesTheFiles` is the exact condition.
- `nameOf` (server.go:724-739) says a DN the server did not publish belongs to nobody; it
  takes `uid=alice,ou=elsewhere,<people>` for alice, as a DN to bind as and as one to change
  the password of (`Names.DeeperDnIsTaken`, `Names.DeeperTargetIsTheirs`).
  `Names.NameOfExactly` says which DNs name whom, `Names.NameIsOfTheDn` when it is theirs.
- A password written and not reloaded is served after the next change of anybody else
  (`ProtocolRuns.UnreadIsServedLater`), though its client was told it was not reloaded.
- The incremental roster of a password change equals the full merge exactly when no name of
  another source has been in the file since the last read and left it
  (`ProtocolTheorems.IncrementalEqualsFull`): such a person is gone
  (`ProtocolRuns.GoneAfterAnEdit`) until the next refresh (`ProtocolRuns.BackAfterARefresh`).

## What is assumed

Each assumption is a named predicate, or a choice in a step.

- Simple case folding permutes characters with finite orbits and does to ASCII letters what
  ASCII folding does (`Rosters.SimpleFolding`, `Rosters.FoldsAscii`).
- An identity is immutable and compared by reference: `Identity` carries the reading that
  made it, so two are equal exactly when the objects are one. The first source owns a name.
- The clock does not go back (`Protocol.Tick`). A password of the file is accepted by
  equality; for anybody else the source decides, in the step.
- `Schemas.Built` is what building a schema makes sure of: no cycle, inherited MUST and MAY,
  no structural class above an auxiliary one, NOT naming nothing a class of its rule
  requires. `Schemas.Standard` is the classes authnd derives. `Schemas.Lists` says Validate
  lists exactly the problems of section 3.3 and section 4.1.6 of RFC 4512, in any order.
- `Rdns.ReadsDns` is what is relied on of the parser of DNs, for the DNs the server makes
  under its two containers (section 3 of RFC 4514): where the container is no DN nothing
  under it is one; where it is one, plain text is read as it is; the first value is of the
  attribute that was written, and where it is the whole name there is no second. A text that
  is no DN gives no RDN, and its entry is refused as one whose RDN is not there. Nothing is
  relied on of matching: that a value matches itself is a condition where it matters.
  `Samples.SampleReadsDns` is a parser that does so, `Validators.ThereIsAValidator` what
  lists the problems.
- Readers append in file order, and what builds defines nothing twice
  (`SiteSchema.Appends`, `SiteSchema.RefusesTwice`). Which structure rule governs an entry
  depends on the attribute naming it, its structural class and the rule above it.
- What counts codes answers somebody with no secret before it looks at anything
  (`Factors.NothingToCount`). SHA-256 does not collide.

## Model

| member | source | states |
|---|---|---|
| `ProtocolTheorems.NoResurrection` | refresh.go:246-270 | In every run of any number of writers, refreshes and readers: an object of the file that was served and no longer is, is never served again, whatever a refresh had read |
| `ProtocolTheorems.ServedPeopleAreTheFiles` | server.go:938-981 | In every run, whenever swapMu is free the local people of the served snapshot are those of local.p: the same names and the same objects |
| `ProtocolTheorems.ReadingsGoUp` | refresh.go:246-270 | No step swaps in local people of an earlier reading of the file than those served |
| `ProtocolTheorems.ReadingsGoUpInRuns` | refresh.go:246-270 | The same from any state of a run to any later one |
| `ProtocolTheorems.ChangesCompareAndSet` | server.go:905-913 | In every run, each change of somebody the file held found them served with the very password it sent as the old one |
| `ProtocolTheorems.ChangesChain` | server.go:867-981 | One person's successful changes form a chain from the password they started with to the one served now: each sends as old what the one before set, and is served from its swap on; for everybody whose block nobody else edited and none of whose changes was written and not reloaded |
| `ProtocolTheorems.AnswersAreTrue` | server.go:1072-1096 | Success means the file was written and one swap made; the failed reload, that it was written and nothing swapped; any other answer, that it was not written |
| `ProtocolTheorems.BuiltNeverGoesBack` | refresh.go:154-173 | built never decreases along a run |
| `ProtocolTheorems.OnlyARefreshMovesBuilt` | server.go:976-978 | Only the store of a refresh that read every source moves built, and only forward; a password write, a failed refresh and a reader leave it |
| `ProtocolTheorems.AnswersAreFreshEnough` | server.go:702-710 | A bind or search answers from one snapshot at least as fresh as the one that passed its age check, although each is a load of its own; so built is within max_age of the time that was looked at |
| `ProtocolTheorems.IncrementalEqualsFull` | server.go:951-971 | In every run, the served roster is the first-source-owns merge of the local people with the other sources as last read if and only if no name of another source has been in the file since and left it |
| `ProtocolTheorems.SomethingCanMove` | server.go:772-774 | In every run, while a thread is unfinished some thread can move: mu and swapMu never deadlock |
| `ProtocolTheorems.LocksLeaveAWay` | server.go:965-966 | The same from the lock invariant alone |
| `ProtocolTheorems.InvStep` | refresh.go:213-270 | Every step of every thread keeps all eight invariants |
| `ProtocolTheorems.InvRun` | refresh.go:213-270 | They hold at the end of every run |
| `ProtocolTheorems.InitHolds` | server.go:116-225 | They hold when the server has started |
| `ProtocolTheorems.ChainLinks` | server.go:905-913 | Two changes of one person with none between: the second's old password is the first's new one |
| `ProtocolTheorems.FirstIs` | server.go:867-896 | The first change of a person sends the password they started with |
| `ProtocolTheorems.EachWasServed` | server.go:938-981 | Each change of an undisturbed person was of somebody the file held and is served after its swap |
| `ProtocolAccess.WritersPassedTheGate` | server.go:750-781 | In every run, a thread that wrote the file serves a person's own request, one the server understands, with the old password in it; and at one step of the run its age check found the data no older than max_age at the time of an earlier one |
| `ProtocolAccess.WritersWereVerified` | server.go:867-896 | ... and at one step the old password was accepted: by the identity itself for somebody of the file, and for anybody else by a source that could be asked and said yes |
| `ProtocolAccess.OnlyTheServedPass` | server.go:994-1005 | Whoever wrote, or is told anything but that they may not, asked for themselves and was served when that was looked at |
| `ProtocolAccess.OnlyTheirOwnIsWritten` | server.go:994-1005 | ... so both DNs, the session's and the target's, name that very person letter for letter, and the session's is that person's DN |
| `ProtocolAccess.OwnIsOwnPassword` | server.go:994-1005 | What the protocol asks of a request is what ownPassword answers |
| `ProtocolAccess.ChangesAreAskedFor` | server.go:905-913 | Every logged change is what its thread's own request asked for |
| `ProtocolAccess.StrangersAreRefused` | server.go:750-765 | Somebody who is not the person is told noSuchObject where the target is nobody and insufficientAccessRights otherwise, or, of the extended operation alone, that the data are too old; and no request without all of that succeeds |
| `ProtocolAccess.OnlyTheOwnerWrites` | server.go:1072-1096 | But for an edit by hand, a step that changes the file changes the password of one name the file has, to what that person asked for |
| `ProtocolAccess.RefusalsAreTrue` | server.go:867-913 | In every run, each refusal has its reason, code by code, at a step of the run |
| `ProtocolAccess.TooOldIsTrue` | refresh.go:178-189 | A reader is told the data are too old only where they were older than max_age |
| `ProtocolAccess.AnsweredFromTheServed` | refresh.go:178-189 | An operation is answered from the snapshot served at that step, after one served at an earlier step passed its age check |
| `ProtocolAccess.AccessStep` | server.go:750-781 | What a request must be to be where it is, and the log, are kept by every step |
| `ProtocolReads.ServedGroupsWereRead` | server.go:976-978 | In every run, the served groups are those the server started with, or what one refresh read, and built is when that very read ended |
| `ProtocolReads.OnlyARefreshMovesGroups` | server.go:976-978 | Only the store of a refresh moves the served groups, to those of the snapshot it read |
| `ProtocolReads.RefreshEndsBecause` | refresh.go:246-270 | A refresh that swaps nothing in found another one running, a source it could not read, two names that clash, or has read three times and been overtaken each time |
| `ProtocolReads.RefreshedIsTrue` | refresh.go:246-270 | One that says it swapped stored what it had read |
| `ProtocolReads.OthersWereRead` | refresh.go:154-173 | What it has of the other sources is what they answered when all could be read |
| `ProtocolReads.ServedNamesAreApart` | roster.go:39-57 | In every run, no two names that are served fold alike |
| `ProtocolRuns.ChangeAlone` | server.go:750-781 | A change with nobody in its way, by modify or by the extended operation, runs to Success in the transition system, and this is the state it leaves |
| `ProtocolRuns.ChangeUnread` | server.go:1089-1092 | A change whose file cannot be loaded again leaves the password in the file and nothing else changed |
| `ProtocolRuns.UnreadIsServedLater` | server.go:1089-1092 | Then the next change of anybody else serves it: a run in which somebody is served with a password no successful change of theirs set, so the chain is of the undisturbed |
| `ProtocolRuns.RefreshAlone` | refresh.go:246-270 | A refresh with nobody in its way swaps in everything that was read |
| `ProtocolRuns.GoneAfterAnEdit` | server.go:963-971 | A name taken out of the file that another source has too is served by nobody after the next change of anybody else: the incremental roster is not the full one |
| `ProtocolRuns.BackAfterARefresh` | refresh.go:246-270 | The next refresh serves it again, from the other source |
| `ProtocolRuns.ReaderAlone` | refresh.go:178-189 | A reader with nobody in its way is answered from what is served if that is no older than max_age, and told it is too old otherwise |
| `ProtocolInvariants.LockStep` | server.go:772-774 | Each lock is held by the thread at a program point inside it, and by nobody else; one refresh at a time |
| `ProtocolInvariants.StampStep` | roster.go:39-57 | Local people are of the reading they say, the others of a source, and nobody is of a reading yet to come |
| `ProtocolInvariants.AgreeStep` | refresh.go:246-270 | While gen has not moved, what a refresh read of the file is what is served of it |
| `ProtocolInvariants.ReloadedOK` | server.go:951-978 | The snapshot reloadLocal builds is well formed and its local people are the new ones |
| `ProtocolInvariants.ReadOK` | refresh.go:154-173 | So is a full read |
| `ProtocolFreshness.BuiltStep` | refresh.go:178-189 | built is never ahead of the clock, an age check was made on a snapshot no fresher than the one served now, and built does not go back |
| `ProtocolChanges.ProofStep` | server.go:867-913 | A thread past the proof holds an identity that accepted the old password, and past the second check one that is served |
| `ProtocolChanges.CheckProves` | server.go:905-913 | writeProved: whoever is served at the check accepted the old password, then or now |
| `ProtocolChanges.FileStep` | server.go:938-981 | The file, what was read of it and what is served agree for every undisturbed name, but for the one change on its way |
| `ProtocolChanges.AnswerStep` | server.go:1072-1096 | A thread's program point says whether it has written and swapped |
| `Reload.Server.ReloadLocal` | server.go:938-981 | The loops of reloadLocal: it succeeds exactly when the file loads and no two names of the new roster clash, and then local, snap and gen are what the protocol swaps in, the groups and built being the old ones; a failure changes nothing |
| `Reload.Carry` | server.go:951-971 | The people a reload keeps, in whatever order the map is ranged over, are those of the function Incremental |
| `Reload.Owned` | server.go:951-957 | The owned set is the new people's names |
| `Reload.FoldApartIsApart` | roster.go:39-57 | Names that fold alike are names with one key |
| `Reload.Server.WritePassword` | server.go:1072-1096 | A refusal changes nothing; a change is in the file, served, and moves gen by one; a failed reload leaves the password in the file and not served; and which it is, in both directions |
| `Reload.Server.WriteProved` | server.go:905-913 | It goes on exactly when the identity served now is the proved one or accepts the old password |
| `Reload.Server.Modify` | server.go:750-781 | With nobody else writing, for anybody served: it succeeds if and only if the request carries the old password, that is accepted, and the file has the person, can be written and reloads; of somebody of the file the value left is then what section 4.6 of RFC 4511 says; anything else short of a failed reload leaves it; and which refusal is met, code by code |
| `PasswordRequests.MeansSection46` | server.go:791-811 | A request with the old password can be applied, in order and whole, to the value held if and only if that is the old password, and leaves exactly the new one |
| `PasswordRequests.ReplacingProvesNothing` | server.go:796-797 | A replace can always be applied, whatever is held |
| `PasswordRequests.UnderstoodExactly` | server.go:812-840 | The lists understood are one replace by one value, or one delete of one value then one add of one, of userPassword, and no others |
| `Names.NameRoundTrip` | server.go:722-739 | nameOf gives back the name of a DN made by dnOf if and only if it is not empty and has no comma |
| `Names.NameOfExactly` | server.go:726-739 | For any DN: it names somebody if and only if it begins with uid= in any case, that name and a comma, and ends with the people's DN in any case |
| `Names.NameIsOfTheDn` | server.go:724-739 | What nameOf takes a name from is that person's DN, case aside, if and only if there is one name before the people's DN |
| `Names.DeeperDnIsTaken` | server.go:726-739 | Any DN further down is taken for the person of its first name |
| `Names.OnlyTheirOwn` | server.go:994-1005 | For any session and any target DN: a password may be changed if and only if both DNs name one served person letter for letter and the session is bound as that person's very DN |
| `Names.DeeperTargetIsTheirs` | server.go:994-1005 | The target DN itself is not compared: any DN further down that begins with their name will do |
| `Rosters.LeastOfOrbit` | roster.go:62-70 | The loop over a fold orbit ends, with the least character of the orbit |
| `Rosters.LeastExists` | roster.go:62-70 | Every orbit has a least character |
| `Rosters.LeastNamesTheOrbit` | roster.go:62-70 | Two characters have the same least one if and only if they are of one orbit |
| `Rosters.FoldName` | roster.go:62-70 | The key is the least characters of the name's orbits |
| `Rosters.KeyIsCanonical` | roster.go:59-70 | Two names have one key if and only if they agree orbit by orbit |
| `Rosters.NewRoster` | roster.go:39-57 | It succeeds if and only if no two distinct names fold alike; then the index is by name, the last of a name winning; a refusal names two people whose names do |
| `Rosters.LastWins` | roster.go:39-57 | Of several people of one name the last one stands |
| `Rosters.AsciiFoldMeans` | oidc.go:238-243 | Equal up to ASCII case is letter by letter the same or the other case of it |
| `Rosters.AsciiFoldMatchIsUnique` | oidc.go:232-243 | In a roster that was accepted at most one name is equal to another up to ASCII case |
| `Rosters.LookUp` | oidc.go:232-243 | The exact lookup in one load of the snapshot, then the unordered scan of a second: it finds the one match there, or there is none |
| `Rosters.Scan` | oidc.go:238-243 | The scan, in whatever order |
| `Declared.WithDeclared` | declared.go:155-181 | The list it is given, extended by exactly the closure under superclasses of the declared classes neither left off nor below one left off; no class twice, each after its superclasses, nothing left off |
| `Declared.WalkInto` | declared.go:161-172 | The walk ends on every class graph without a cycle |
| `Declared.WalkElements` | declared.go:161-172 | A walk adds exactly the class and its superclasses at any depth, top aside |
| `Declared.WalkExtends` | declared.go:161-172 | In an order that has every superclass first, and nothing twice |
| `Declared.ClosedMeans` | declared.go:173-181 | Both for all the declared classes together |
| `Declared.CarriedMeans` | declared.go:173-181 | The declared classes added are those known, neither left off nor below one left off, once each |
| `Declared.AddedAreNotSkipped` | declared.go:150-181 | No class in skip is among those added |
| `Declared.SkippedMeans` | declared.go:279-297 | A class is skipped if and only if it or a superclass at any depth is in skip, and skippedBy names such a superclass |
| `Schemas.AncestorsClosed` | declared.go:155-158 | Superclasses are closed under taking superclasses |
| `Schemas.AncestorsLeast` | declared.go:155-158 | They are the least such set holding the class (section 3.3 of RFC 4512) |
| `Schemas.AncestorsTransitive` | declared.go:287-297 | A superclass of a superclass is one |
| `Schemas.MustInherited` | entries.go:465-480 | A class requires what its superclasses require |
| `Schemas.NeverStructuralAbove` | declared.go:127-148 | Nothing above an auxiliary class is structural |
| `Schemas.StructuralOfExtended` | declared.go:267-277 | Auxiliary classes after it do not change the structural class |
| `LeftOff.FindUnmet` | declared.go:212-265 | The classes to publish without, each said once, are exactly those the content rule refuses, the declared ones below such a class, and the declared ones with a MUST the entry misses |
| `LeftOff.FindNotAllowed` | declared.go:218-239 | The first loop |
| `LeftOff.FindBelow` | declared.go:240-254 | The second |
| `LeftOff.FindMissing` | declared.go:255-264 | The third |
| `LeftOff.UnmetMeans` | declared.go:196-211 | The same of the function they compute |
| `LeftOff.SkipIsClosed` | declared.go:240-241 | A declared class goes with a superclass if and only if it is itself said to be left off: none goes silently |
| `Withdrawal.WhichRuleIsNamed` | declared.go:240-254 | Of a person and a schema: a declared class is said to go with a superclass if and only if the rule takes it and not all that is above it; the superclass said is the first, in the order of the walk, that the rule refuses or that is an earlier declared class that goes; and the rule is named if and only if it refuses that one |
| `LeftOff.SuperNamesTheRule` | declared.go:187-194 | The same of whatever is said: the rule is named if and only if it refuses the superclass that is said |
| `LeftOff.HowItIsSaid` | declared.go:240-254 | What the second loop says of a declared class below one the rule refuses |
| `LeftOff.WhoIsSaidSo` | declared.go:240-254 | It says so of no other |
| `LeftOff.WhatIsSaidMissing` | declared.go:255-264 | A class said to go for what is missing is a declared one the rule takes with all above it, and what is said to be missing is exactly what of its MUST Validate missed |
| `Declared.SkippedBySame` | declared.go:287-297 | skippedBy depends only on which superclasses are left off |
| `Declared.SkippedByIsFirst` | declared.go:287-297 | It is the first superclass left off, each one being looked at before what is above it, and that before the next |
| `LeftOff.NoRuleIsNamed` | declared.go:240-254 | The failing case: of two declared classes, one above the other, below one the rule refuses, the lower is said without the rule |
| `Instances.LowIsSaidWithoutTheRule` | declared.go:240-254 | A schema and a person it happens to |
| `LeftOff.AddSuperMeans` | declared.go:240-254 | Being below a class left off for its own superclass adds nothing |
| `LeftOff.AddMissingMeans` | declared.go:255-264 | Each class with a missing MUST is added, once |
| `Validated.KeepAndDiscardPartition` | entries.go:236-249 | Kept and dropped attributes partition the list |
| `Validated.KeepAndDiscardInOrder` | entries.go:236-249 | Each in the order the list had |
| `Validated.DroppingSparesMust` | entries.go:230-234 | Dropping never takes an attribute that a class or the content rule requires |
| `Validated.DroppedMust` | entries.go:230-234 | What a class misses after the drop round it missed before |
| `Validated.DroppedRuleMust` | entries.go:230-234 | And what the content rule misses |
| `Validated.OneRoundIsEnough` | entries.go:208-216 | After one drop round nothing is left that a second would drop: only a missing MUST, a value, the RDN |
| `Validated.SecondRoundDropsNothing` | entries.go:220-254 | A second validated changes nothing |
| `Validated.ActedOn` | entries.go:224-235 | Whatever Validate says against an attribute is acted on, for nothing the server adds is refused |
| `Validated.RequiredIsAllowed` | entries.go:465-480 | What is required is allowed |
| `Validated.HeldEntry.Validate` | entries.go:84-89 | The cached answer is Validate of the entry as it is now, asked once for each state of it |
| `Validated.HeldEntry.Validated` | entries.go:220-254 | One question, one drop round, the question again if the attributes changed; what is dropped, kept and said |
| `Validated.HeldEntry.Hold` | entries.go:142-156 | An entry no rule places, or too large for a message, is withheld as one that fails the schema |
| `Validated.BytesAreTheText` | entries.go:142-156 | The size is that of everything the attributes say, one description and value after another |
| `Validated.HeldEntry.constructor` | entries.go:47-82 | A new entry has no cached answer |
| `Validated.Divide` | entries.go:236-249 | The loop that keeps and drops |
| `Validated.Drops` | entries.go:223-235 | The set of descriptions to drop |
| `Entries.MakePersonEntry` | entries.go:288-376 | The entry the theorems about people speak of |
| `Entries.MakeGroupEntry` | entries.go:406-451 | The entry the theorems about groups speak of |
| `Entries.ObjectClassReads` | entries.go:346-358 | The values of objectClass, read as names, are top and the entry's classes in their order |
| `Groups.GroupIsOfOneClass` | entries.go:415-422 | Whatever is declared or left off, a group is a posixGroup if and only if a source gives a gidNumber, a groupOfNames if and only if none does and it has members, an organizationalRole otherwise |
| `Groups.GroupAttributes` | entries.go:426-449 | Its attributes in their order: classes, cn, what was given, and then memberUid with its members for a posixGroup, member with their DNs for any other, and neither where it has none |
| `People.PersonIsOfOneClass` | entries.go:291-307 | A person is of inetOrgPerson and the two above it if and only if a source gives an sn, and of account otherwise |
| `People.PersonHasTheClassesOf` | entries.go:308-342 | The auxiliary classes that follow from what a person has, and not from what is declared |
| `People.PersonAttributes` | entries.go:346-375 | A person's attributes in their order: classes, uid, cn where a class has one, what was given, then the SID, the NT hash and the keys |
| `Shapes.OneChain` | declared.go:267-277 | An entry's structural classes are those of the chain the server chose, whatever is declared |
| `Shapes.SuperclassesListed` | entries.go:291-296 | Every superclass of every class of an entry is listed |
| `Shapes.RuleSpares` | entries.go:230-234 | The content rule's NOT spares everything an entry's classes require |
| `Shapes.Whence` | entries.go:339-345 | A class of an entry is of the chain, derived, or above a declared class and not structural |
| `Shapes.LaidIsShaped` | entries.go:159-171 | An entry so laid out meets what the drop round needs |
| `Rebuild.NothingNew` | declared.go:212-265 | What a rebuild carries besides the chain, the first build carried, and it is not left off |
| `Rebuild.RebuiltAuxAllowed` | declared.go:196-211 | After the one rebuild no auxiliary class is outside the content rule's AUX |
| `Rebuild.BroughtInHadMust` | declared.go:255-264 | A class a still carried declared one brought in had every MUST in the first build |
| `People.RebuiltIsShaped` | entries.go:159-171 | After the one rebuild: superclasses listed, one chain, AUX respected, and nothing the server adds refused |
| `People.RebuiltMust` | entries.go:159-171 | After the rebuild a class misses a MUST if and only if the rebuild withdrew what it requires; never a class the server derived |
| `People.PublishedMust` | entries.go:190-204 | The same of the published entry, as Validate says it |
| `People.CarriedOrSaid` | declared.go:212-265 | Every checked class a source declares is carried, or left off and said once; never both |
| `Withheld.PersonStaysPublished` | entries.go:190-216 | What Validate can still say of a published person, of the person and the schema alone: a MUST of the content rule or of a declared class that neither a source nor the server gives any more, and that one if and only if so; a value that was there before; a name their DN does not parse to, a uid the content rule precludes; nothing else |
| `Withheld.RuleMustExactly` | entries.go:190-204 | A MUST of the content rule is missed if and only if no source gives it and the server does not add it once the classes the rule refuses are gone |
| `Withheld.OneRebuildIsNotEnough` | declared.go:196-211 | Of a person and a schema, before anything is built: a MUST the first build met is missed after the rebuild if and only if a declared class that stays, or the content rule, requires what is derived, given by nobody, and goes with a class the rule refuses |
| `Withheld.FirstHas` | entries.go:346-375 | What the first build has |
| `Withheld.RebuiltHas` | entries.go:308-330 | And what the rebuilt entry has |
| `Withheld.RebuiltClasses` | declared.go:212-265 | The classes after the rebuild: the chain, the derived ones the rule takes, and what is at or above a declared class that stays |
| `People.RdnStays` | entries.go:228-235 | A person whose DN parses to their name loses it if and only if the content rule of inetOrgPerson precludes uid |
| `People.MisnamedPersonIsRefused` | structure.go:50-55 | One whose DN parses to anything else is refused, if no source gives a uid |
| `People.RdnOfPeople` | structure.go:50-55 | So, where none gives a uid: refused for the name if and only if the DN does not parse to it or uid is precluded; a plain name parses to itself if and only if the people's DN is a DN and uid matches the name with itself |
| `People.NobodyUnderNoDn` | server.go:121-122 | Where the people's DN is no DN, everybody is refused, whatever a source gives |
| `Rdns.RdnExactly` | entries.go:220-254 | For any entry and any DN: the published entry lacks what it is named by if and only if the DN gives no RDN, or a part of it was never held, is not allowed or is precluded |
| `Rdns.HeldAfter` | entries.go:223-249 | The drop round takes all attributes of a type or none |
| `Rdns.NamedLosesOnlyToNot` | entries.go:228-235 | An RDN that is the name is lost only to NOT |
| `Rdns.MisnamedIsRefused` | structure.go:50-55 | One that is not, where the attribute holds the name alone, is refused |
| `Instances.NameWithAPlus` | structure.go:50-55 | The person a+mail=b is refused |
| `Instances.GroupWithAPlus` | entries.go:449 | The group a+ou=b is refused |
| `Instances.UidPrecludedForCarol` | entries.go:228-235 | A person with an sn, under a rule that precludes uid, is refused |
| `Instances.EveIsRefusedForHerName` | structure.go:50-55 | Where a source gives uid under another name, an RDN the data made different passes Validate and is refused by the name form |
| `Samples.SampleReadsDns` | server.go:722 | A parser that reads nothing from a text that is no DN, and the DNs the server makes as is relied on, under any container |
| `Validators.ThereIsAValidator` | entries.go:84-89 | For every schema there is a validator that lists exactly the problems of an entry |
| `People.OneRoundForPeople` | entries.go:220-254 | For every person a second drop round changes nothing |
| `People.PersonHas` | entries.go:346-375 | The types an entry has: what was given, and what the server adds |
| `People.PersonOwnAllowed` | entries.go:346-375 | Nothing the server adds is refused by the entry's own classes |
| `People.BaseHas` | entries.go:288-342 | The classes of a person before the declared ones: a chain, then exactly the derived classes they have what it takes for and that are not left off, each once |
| `People.TailHas` | entries.go:365-373 | What is added after the given attributes: a SID where one is derived and none given, the NT hash where there is a SID, the keys where the class is not left off |
| `People.HeadHas` | entries.go:346-358 | What is added before them: objectClass and uid always, cn where a class allows it |
| `People.PersonRebuilds` | entries.go:288-345 | A rebuild keeps the chain and, of the rest, what is neither left off nor below it |
| `People.SkipMeans` | declared.go:212-265 | What is skipped is what unmet read off the first build, each class said once |
| `People.KeptUnlessWithdrawn` | entries.go:308-330 | A rebuild takes away nothing else that is required |
| `Withdrawal.ClassMustExactly` | declared.go:196-211 | The published entry misses a MUST of a class if and only if it came with a declared class that fits the content rule, had what it requires, and requires what is derived, given by nobody, and goes with a class the rule refuses |
| `Withdrawal.StaysCarried` | declared.go:212-265 | A declared class stays if and only if the content rule takes it and every auxiliary class above it, and the person has what it requires |
| `Withdrawal.WithdrawnIsLost` | entries.go:308-330 | What the rebuild withdraws is what is derived, not given, and goes with a refused class |
| `Withdrawal.DerivedLeftOff` | declared.go:218-239 | A derived class is left off if and only if the content rule refuses it |
| `Instances.BobIsWithheld` | declared.go:203-211 | A schema and a person withheld for the MUST of a class a source declares |
| `Instances.KimIsWithheld` | declared.go:203-211 | A schema and a person withheld for a MUST of the content rule that the first build met, with no class declared |
| `Instances.NobodyUnderABadSuffix` | config.go:287 | Under a base_dn that is no DN and has a = in it, everybody is refused |
| `Groups.RebuiltGroupIsShaped` | entries.go:171-183 | What RebuiltIsShaped says, for groups |
| `Groups.RebuiltGroupMust` | entries.go:171-183 | After the rebuild every class of a group's entry has every MUST |
| `Groups.GroupStaysPublished` | entries.go:190-216 | What Validate can still say of a published group: a MUST of its content rule that no source gives and the server does not add, a value that was there before, a name its DN does not parse to; nothing else |
| `Groups.GroupKeepsItsName` | entries.go:406-451 | A group whose DN parses to its name never loses it |
| `Groups.MisnamedGroupIsRefused` | entries.go:449 | One whose DN parses to anything else is refused, if no source gives a cn |
| `Groups.RdnOfGroups` | entries.go:449 | So, where none gives a cn: refused for the name if and only if the DN does not parse to it |
| `Groups.NoGroupUnderNoDn` | server.go:121-122 | Where the groups' DN is no DN, every group is refused |
| `Groups.GroupRuleMust` | entries.go:190-204 | A MUST of the content rule is missed if and only if no source gives it and the server adds none, before the rebuild as after it |
| `Groups.GroupCarriedOrSaid` | declared.go:212-265 | CarriedOrSaid, for groups |
| `Groups.GroupHas` | entries.go:428-449 | The types a group's entry has: an empty group carries neither memberUid nor member |
| `Groups.GroupOwnAllowed` | entries.go:428-449 | Nothing the server adds to a group is refused |
| `Publication.Build` | entries.go:159-185 | Every person in order, then every group a source answers for, each with its value, its verdict and the classes left off |
| `Publication.OneOutcomeEachGroup` | entries.go:169-183 | The outcomes of groups: one for each a source answers for, in their order |
| `Publication.Valid` | entries.go:103-111 | What a search is answered from |
| `Publication.PublishedExactly` | entries.go:103-111 | An entry is searched if and only if it is the value of one nothing is said against |
| `Publication.PublishedInOrder` | entries.go:103-111 | Each once, in the order they were built |
| `Publication.BuildPerson` | entries.go:161-168 | One person: built, rebuilt only if something is left off, dropped once, placed, sized |
| `Publication.BuildGroup` | entries.go:169-183 | One group |
| `Publication.PlacedAndValidated` | entries.go:187-192 | The verdict: the schema first, then the structure rules, then the size |
| `Publication.VerdictMeans` | entries.go:103-111 | An entry is published if and only if Validate finds no problem, some rule places it, and it fits |
| `Publication.VerdictExactly` | entries.go:187-192 | The verdict is the schema's problems, all of them, if there are any; no place, for an entry without problems; the size, for one that has its place |
| `Publication.PersonSaysWhatIsLeftOff` | declared.go:212-265 | Of a person, each declared class that was checked is one the entry has, or is said to be left off, once |
| `Publication.GroupSaysWhatIsLeftOff` | declared.go:212-265 | And of a group |
| `Publication.WhyAPersonIsWithheld` | entries.go:187-204 | Why a person is withheld, of the person and the schema: what Validate says is in the list of PersonStaysPublished; the size is that of the DN and the attributes; with no place, it is as below |
| `Publication.WhyAPersonIsNotPlaced` | structure.go:196-207 | Once startup has passed, whoever no rule places has a structural class without a rule under the people's DN, where another that a person can have has one; or a source gives them a uid, and they are not named by uid alone |
| `Publication.PassedIsNamed` | structure.go:50-55 | A person Validate says nothing of is named by their name, and by uid alone, if no source gives a uid |
| `Publication.WhyAGroupIsWithheld` | entries.go:187-204 | The same of a group |
| `Publication.WhyAGroupIsNotPlaced` | structure.go:196-207 | And of a group no rule places |
| `Structure.Probe` | structure.go:118-141 | A container's probes refuse nothing if and only if no shape is refused for its name and some shape can be placed |
| `Structure.ContainerClass` | structure.go:149-169 | The class a container's RDN names: one of five, or none |
| `Structure.ContainersAre` | structure.go:57-65 | The five |
| `Structure.CheckContainer` | structure.go:112-141 | A container passes if and only if it is governed and useful |
| `Structure.CheckStructure` | structure.go:88-147 | With active rules startup passes if and only if the suffix has a class and is governed, and both containers are governed under its rule and useful; the rules kept are those that govern them |
| `Structure.ShapesAreAll` | structure.go:69-74 | The shapes probed at startup are exactly those an entry can have |
| `Structure.WantOfARule` | structure.go:44-49 | Where startup passed, a shape is not placed only for want of a rule, and another one is placed |
| `Structure.OnlyForWantOfARule` | structure.go:196-207 | An entry named by uid alone, as the probes were, is left out only because its class has no rule, and another class has one |
| `Structure.NamedAsProbed` | structure.go:120-121 | A DN that parses to the name is named by uid, or cn, alone |
| `Structure.ProbesAreNamed` | structure.go:120-121 | So are the probes, under a container that is a DN |
| `Structure.GroupOnlyForWantOfARule` | structure.go:196-207 | And so is a group |
| `Structure.PersonIsPlacedBy` | structure.go:196-207 | The class an entry is placed by is its shape's last, whatever is declared or left off |
| `Structure.GroupIsPlacedBy` | structure.go:196-207 | For groups |
| `Startup.ClosedExactlyOnce` | limits.go:225-271 | In every run: closed at most once, and cleanup is called at most once even if it did not go through once; never while the work runs; never when nil is returned; once when an error of the work is; once when both have ended after a timeout |
| `Startup.EveryRunEnds` | limits.go:225-271 | No run has more than eleven steps, and one that cannot go on has closed exactly once if the caller was told of an error, and not at all otherwise |
| `Startup.ToldTheTruth` | limits.go:252-258 | The caller is told of the work what it did, unless the time ran out |
| `Startup.AnswerStands` | limits.go:252-270 | Once it has returned, its answer stands, and nil is never followed by a close |
| `Startup.SomebodyCanMove` | limits.go:240-271 | Neither waits for the other for ever |
| `Startup.InTimeIsTold` | limits.go:252-258 | Work that ended before the caller gave up can be told of, and the caller returns what it did |
| `Startup.LateIsGivenUp` | limits.go:259-270 | Work that has not can be given up on |
| `Startup.InvRun` | limits.go:225-271 | The invariant holds in every run |
| `Startup.InvStep` | limits.go:225-271 | Every step keeps it |
| `PendingChecks.Pending.Acquire` | limits.go:150-158 | Refused if and only if the source has its 64 goroutines outstanding, whatever waits on others |
| `PendingChecks.Pending.Release` | limits.go:160-166 | A goroutine that ends gives up its place, and a source with none outstanding leaves no counter |
| `PendingChecks.Pending.constructor` | limits.go:145-148 | Nothing is outstanding at first |
| `PendingChecks.OneMore` | limits.go:150-158 | A start counts for its source and no other |
| `PendingChecks.OneLess` | limits.go:160-166 | So does an end |
| `Certs.CertStore.ReloadLocked` | certs.go:109-134 | The look, branch by branch, and what it serves |
| `Certs.CertStore.Get` | certs.go:91-100 | A look is due after recheck or when the clock went back; after it the files' certificate is served if they load to one |
| `Certs.CertStore.Reload` | certs.go:103-107 | A forced look |
| `Certs.CertStore.constructor` | certs.go:79-88 | The pair loaded at startup |
| `Certs.LookKeeps` | certs.go:109-134 | Every look keeps: a served identity loads to the certificate held, a failed one to none |
| `Certs.LookServesTheFiles` | certs.go:22-27 | After a look the files' pair is served if it loads and the previous one otherwise, except exactly where the stamps mistake a pair that loads to another certificate |
| `Certs.ReadableFilesAreServed` | certs.go:22-27 | Never for files that can be looked at |
| `Certs.HistoryDecides` | certs.go:22-30 | After any looks at files that are not too long, the store serves the last pair it looked at that loads |
| `Certs.LongFilesAreMistaken` | certs.go:62-71 | The failing case |
| `Certs.FailureSaidOnce` | certs.go:117-129 | A pair that does not load is said once in a run of looks at it, or not at all if it failed last or was served |
| `Certs.BothGoneIsSilent` | certs.go:117-129 | Two files gone after a load are never said |
| `Certs.NewPairServedOnce` | certs.go:130-134 | A new pair that loads is served at the first look and said once |
| `Certs.BadPairIsSaidAgain` | certs.go:117-134 | A load forgets what failed before: a bad pair that comes back after a good one is said again, but for two files gone |
| `Certs.ForcedLookSays` | certs.go:103-134 | A forced look says a pair that does not load every time, and nothing of the pair that is served |
| `Factors.SplitCodeMeans` | factors.go:52-60 | A field is a password and a code if and only if it is their concatenation, the code of that length and the password not empty |
| `Factors.WrongPasswordsLeaveNoTrace` | factors.go:31-38 | After any binds of anybody, the codes are as after only those whose password half verified |
| `Factors.UnprovenLeavesNoTrace` | factors.go:97-108 | One bind with a wrong password leaves the codes as they were |
| `Factors.ProvenIsCounted` | factors.go:97-108 | Behind the right password a bind leaves the codes as counting each question for the code once, in order, does |
| `Factors.AsksCounted` | factors.go:97-108 | The same of the first questions of a bind |
| `Factors.OneAnswer` | factors.go:139-154 | Whatever the order the factors are asked in, the source is asked at most once and its first answer stands |
| `Factors.BindWithCode` | server.go:605-648 | A bind as it runs: at most one question to the source, the codes as the function says, and each factor's answer: the password what the source said, the code yes if and only if the password was right and what counts accepted that code at that time |
| `Factors.Knowledge.Verify` | factors.go:139-154 | The cached answer |
| `Factors.AfterPassword.Verify` | factors.go:97-108 | The code is counted only behind the right password, or for somebody with no secret, and passes if and only if it is asked for so and what counts accepts it |
| `OAuthBearer.RoundTrip` | oidc.go:437-453 | Parsing what was printed gives back authzid and token if and only if neither has a ^A and the token is not empty |
| `OAuthBearer.Canonical` | oidc.go:302-335 | Whatever parses, printed again, parses to the same |
| `OAuthBearer.UnescapeEscape` | oidc.go:366-370 | Unescaping an escaped name gives it back, for every name |
| `OAuthBearer.EscapeIsClean` | oidc.go:444-445 | An escaped name has no comma, and no ^A it did not have |
| `OAuthBearer.UnknownKeysIgnored` | oidc.go:315-324 | Whatever fields with other keys, or with no = at all, are put between the header and the rest, the credentials parse to what they did |
| `OAuthBearer.AuthDecides` | oidc.go:321-332 | The first auth field decides, in any ASCII case, whatever comes after it: the token behind Bearer, or a refusal |
| `OAuthBearer.NoAuthNoToken` | oidc.go:333-335 | With no auth field there is no token |
| `OAuthBearer.HeaderExactly` | oidc.go:340-370 | A header names an authzid if and only if it is n or y, then nothing or a= and the authzid escaped, each with its comma |
| `OAuthBearer.FlagsMean` | oidc.go:345-354 | y reads as n does, and p= is refused whatever follows |
| `OAuthBearer.UnescapeExactly` | oidc.go:366-370 | Undoing the escapes goes from left to right and leaves every other text alone |
| `OAuthBearer.ParsedIsClean` | oidc.go:302-335 | What parses has a token that is not empty, and no ^A |
| `OAuthBearer.PrintedParses` | oidc.go:302-335 | What a printed empty token is refused as |
| `OAuthBearer.Parse` | oidc.go:302-335 | The loop over the pairs |
| `OAuthBearer.Print` | oidc.go:437-453 | What is written parses to the authzid and the token if and only if neither has a ^A and the token is not empty |
| `TokenFactors.TokenFactors` | oidc.go:384-406 | One factor for each kind of method, for the first of that kind, in the order those are named, and no kind twice |
| `TokenFactors.CountIsKinds` | oidc.go:393-405 | So there are as many factors as kinds |
| `TokenFactors.AmrKindIsRegistered` | oidc.go:413-424 | Each registered method is of one kind, in any case, and any other is Unknown |
| `Samba.ParsedExactly` | samba.go:81-102 | A text is accepted if and only if it is what printing a domain's numbers gives: an authority below 2^48, one to fourteen sub-authorities below 2^32 |
| `Samba.ParsedIsPrinted` | samba.go:81-102 | What is accepted is reproduced by printing its numbers |
| `Samba.PrintedIsParsed` | samba.go:81-102 | What is printed is accepted |
| `Samba.ParseSID` | samba.go:77-102 | The numbers returned are a domain's and print as the text; there are none if and only if the text is no such print |
| `Samba.ParseParts` | samba.go:88-101 | The loop, with its early return |
| `Samba.RidIsExact` | samba.go:121-127 | The 64-bit arithmetic never wraps for a RID it returns: it is 2 * uid + base, in range, and maps back; there is none if and only if that is past 0xfffffffe |
| `Samba.SambaSidExactly` | samba.go:104-129 | The SID of a person: what a source gives; otherwise the domain's with 2 * uidNumber + base after it, base being 1000 unless it is set; and why there is none |
| `Samba.CheckedMeans` | samba.go:56-68 | The blocks startup accepts: a domain's SID, and no base or an even one of at least 1000 |
| `Samba.DomainMeans` | samba.go:88-97 | The limits of a domain's numbers |
| `Samba.ParseUintExactly` | samba.go:95-97 | What is read as a number |
| `Samba.SidsAreApart` | samba.go:104-129 | Two people get one SID if and only if their uidNumbers are one number |
| `Samba.DerivedSidIsCanonical` | samba.go:128 | A derived SID is the domain's numbers and the RID, printed |
| `Samba.FormatParses` | samba.go:96-97 | Printing a number and reading it gives it back |
| `Samba.FormatIsPlain` | samba.go:96-97 | It is printed with no leading zero |
| `Samba.PrintedIs` | samba.go:81-102 | A SID is S-1- and the first number, then each one after a dash |
| `SiteSchema.DirectorySchema` | siteschema.go:104-173 | It succeeds if and only if every step does; then the additions, in order, are exactly what was put on the standard schema, kind by kind |
| `SiteSchema.ReadFiles` | siteschema.go:128-148 | The loop over the schema files |
| `SiteSchema.DecodeBlocks` | siteschema.go:154-170 | The loop over the blocks |
| `SiteSchema.OneOwner` | siteschema.go:279-321 | Every OID and name of a kind is defined by one addition or by the standard schema, and that is who owns it |
| `SiteSchema.AddOwners` | siteschema.go:294-321 | add puts the owner over exactly the OIDs and names defined |
| `SiteSchema.PutKind` | siteschema.go:301-320 | For the definitions of one kind |
| `SiteSchema.Put` | siteschema.go:295-300 | For one definition |
| `SiteSchema.AddFile` | siteschema.go:264-277 | What a file adds is what is there with it and was not without |
| `SiteSchema.AddBlock` | siteschema.go:264-277 | And so for a block |
| `SchemaBlocks.SchemaBlockFiles` | siteschema.go:226-254 | One file for each block, or a refusal exactly when one is not where the parser said |
| `SchemaBlocks.BlankBefore` | siteschema.go:242-250 | The loop that blanks and the copy, in an array |
| `SchemaBlocks.BlocksKeepTheirPlace` | siteschema.go:209-225 | Every byte of a block keeps its offset, its line and its byte column, and everything before is blank |
| `SchemaBlocks.PositionsKept` | siteschema.go:199-208 | The same of any blanked text |
| `SchemaBlocks.NothingElseHandedOn` | siteschema.go:205-208 | Nothing but the block's own text is handed on |
| `SchemaBlocks.BracesAreNotHandedOn` | siteschema.go:234-246 | Of a body in braces neither brace is handed on, and of one without them all of it is |
| `Text.SplitAt` | oidc.go:306 | Splitting at a byte: the part before the first one |
| `Text.CutMeans` | oidc.go:341 | Cutting finds the first one, or there is none |

## Left out

- Listening, TLS handshakes, BER, filters and scopes, the KDC's wire protocol, HCL decoding, signals: library or I/O work.
- The libraries' insides (directory, mfa, totp, oidc, schema): only the contracts named under "What is assumed".
- The counters and the `failing` flag that take `mu` (server.go:496-498, refresh.go:216-243, refresh.go:287-298): they change nothing modelled. A refresh that overlaps is modelled as refused; the report of failures once per streak is not.
- Groups in the protocol: a snapshot carries what reading the groups gave as one value; `checkConfigGroups` and `readGroups` are a step that may fail.
- `hcldir.SetPassword` is one atomic update of the file that may fail; the fields of a user block other than the password are not modelled.
- ProtocolTheorems.ChangesChain: one direction, for names not disturbed; past a change that was written and not reloaded a chain may or may not hold (`ProtocolRuns.UnreadIsServedLater`).
- Wall-clock bounds: a deadline is a step that may happen. Nothing is claimed of timing.
- Reload.Server.Modify: against a quiet server; the interleavings are `ProtocolTheorems`. The decoding of the extended operation is not modelled; its order of checks is, in `Protocol`.
- Names.NameRoundTrip: lower case is character by character, so a letter whose lower case has another length is not covered.
- Factors.BindWithCode: the factors are asked one after another, in any order and any number of times; what a policy makes of their answers is not modelled.
- Certs.LookServesTheFiles: a look reads both files at one moment; a renewer that writes between the stamp and the load is not modelled.
- SchemaBlocks.BlocksKeepTheirPlace: byte columns; HCL's own are in grapheme clusters.
- `undeclared` (declared.go:303-311), which speaks of classes that were not checked at startup and cannot occur, and every sentence that is printed.
- Samba.SidsAreApart: of uidNumbers as numbers; two spellings of one number are one person's mistake to make.
- The class a problem names that the schema does not know (UnknownClass) is not modelled: every class of an entry is one the schema has.
- Whether a source can give `uid` or `cn` under another name is the directory library's; the results that depend on it say so.
