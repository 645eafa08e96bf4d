# A verified model of the TollGate test harness

This project models, in Dafny, the parts of the repository where a property needs more than one function to
see, and proves those properties for all inputs, all runs and all interleavings.

* **The bench lease** (`BenchLease`, `VenueProtocol`, `VenueRuns`, `BenchLock`, `Venue`, `HolderLine`, `PyText`). Many
  processes share one lock file. The kernel's flock is the authority and the holder line in the file is metadata.
  `BenchLease` is the protocol as a transition system in which every kernel call is a step of its own and a process may
  die between any two. `VenueProtocol` puts around it venue sessions, the lock object each process remembers, foreign
  users of a place, lost, late and interrupted client calls, and crashes; `VenueRuns` says what every run keeps.
  `BenchLock` and `Venue` are the objects one caller drives, field by field; both layers share the verdict `Judge`.
  `HolderLine` is the record itself, over Python's string operations in `PyText`.
* **Tokens** (`Cbor`, `Base64`, `TokenConverter`). The V4 to V3 converter: a recursive CBOR reader over a moving
  offset, base64url with stripped padding, and the re-encoder. A wire grammar independent of the reader says what
  bytes mean.
* **Bech32** (`Bits`, `Bech32`, `Regroup`, `Npub`). The checksum as a linear map over GF(2), the 32-bit wrapping bit
  regrouper of the dashboard and the unbounded one of the mock router against one definition by bit strings.
* **The mock mint** (`MockMint`). Blind signatures over any abelian group, and the spent set over whole runs.
* **What is assumed** (`LawfulInstances`). The laws asked of JSON and of the curve are met by concrete instances.
* **Archives, run lists, the token pool, release tags** (`ArReader`, `RunFeed`, `TokenPool`, `ReleaseRank`).

`dafny verify dfyconfig.toml` checks everything. Code that works by changing things is a class or a method with loops,
proved against a function; lemmas about that function say what the source promises.

## What the proofs found

* The dashboard's npub texts never pass the BIP 173 check, because its prefix expansion has no separator
  (`Npub.NpubFailsBip173`); the expansions agree exactly where a zero symbol leaves the register alone
  (`Npub.ExpansionsAgreeIff`).
* A V4 token is converted exactly when every text in it is Latin-1; otherwise `btoa` throws and the caller gets the V4
  text back (`TokenConverter.ConversionKeepsToken`, with `TokenConverter.NonLatinTokenKept` for a token that is not).
* `bench_state` reads one line and `acquire` reads all: a live line under a blank first line is "free" to the one and
  stale to the other, and that is the only disagreement (`BenchLease.StateForetells`, `BenchLease.BlankLineMasks`).
* A holder line of only `key=value` words, in the order profile, pid, purpose, since, passes for the canonical shape,
  and its profile is then reported with its key, as "profile=manager" (`HolderLine.ShapedProfile`).
* `require` can pass for a dead window's children while another process stands between taking the flock and truncating
  (`BenchLease.StaleLineLetsChildPass`). An acquire can fail as busy with no window open, exactly while a status probe
  or a check has the flock (`BenchLease.BusyMeansWindow`, `BenchLease.ProbeTurnsAway`).
* `hardware_lock` remembers its lock object when a release raises, and then lets the process in at once without the
  flock (`Venue.HardwareLock.AcquireAfterFailedRelease`). So a venue session can have its place while a legacy window
  has the bench (`VenueRuns.FailedReleaseBreaks`, from a fresh bench in `VenueRuns.DisciplineBreaks`). With no error
  at all, a second session of the same process, opened and ended inside the first, takes the flock with it
  (`VenueRuns.NestedLetsGo`). The flock stands behind a session's place exactly until a release of its window begins
  (`VenueRuns.VenueDiscipline`), which is always when no process overlaps two sessions, none of their releases raises
  and none is interrupted (`VenueRuns.OrderlyDiscipline`). For one session, `Venue.VenueMutex` gives the condition on
  entry.
* A venue session's place can be left taken with nobody to give it up: by its process's death, which frees the bench
  at once (`VenueRuns.CrashStrandsPlace`); by an error of a class that `LabgridBench.acquire` does not catch, after
  the grant (`VenueRuns.InterruptStrandsPlace`); by a lost release; by a late grant; and in no other way
  (`VenueRuns.VenueDiscipline`).
* `venue_mutex` with `file_lock` true releases a hardware lock that was already held on entry (`Venue.VenueMutex`); a
  failed place acquire gives up a place the same user held before (`Venue.LabgridBench.Acquire`).
* A token pool that is empty with no mint call under way stays empty for good, and only such a pool does
  (`TokenPool.DryExactly`).
* A whole token behind a URI scheme is not converted, because the scheme's replacement doubles its prefix
  (`TokenConverter.UriConversion`).
* Loading shows the batch's event of a run even when the cached one is newer (`RunFeed.LoadedShows`).
* A release tag ending in `-post` or `-post0` ranks equal to the release itself, and no other post does
  (`ReleaseRank.PreAndPost`).
* 64 characters that are no key still get an npub unless a pair of them reads as a negative number: a pair that reads
  as no number counts as zero (`Npub.HexToNpub`, `Npub.SameNpubIff`).

## Model

| member | source | states |
|---|---|---|
| PyText.FoldJoinsWords | lib/bench_lock.py:184-187 | Stripping a text and folding its white space gives its words joined by underscores. |
| PyText.SplitJoin | lib/bench_lock.py:165 | `split()` gives back any words joined by single spaces. |
| HolderLine.ComputeHolder | lib/bench_lock.py:153-181 | The parsing loop over tokens, with its dictionary, computes the holder of the text on every input, empty text included. |
| HolderLine.FieldIsLast | lib/bench_lock.py:166-169 | A field holds what the last token for its lower-cased key says, everything after the first `=`. |
| HolderLine.CleanIsWord | lib/bench_lock.py:184-187 | A cleaned field is one nonempty word without white space, the value's words joined by underscores, or the default exactly when the value has no words. |
| HolderLine.CleanIdempotent | lib/bench_lock.py:184-187 | Cleaning twice is cleaning once. |
| HolderLine.LineRoundTrip | lib/bench_lock.py:196-216 | For every profile, purpose, task and host, blanks and `=` signs included, and every nonnegative pid, parsing the written line returns the folded fields, the pid, the time stamp, and the task id with "-" read as none. |
| HolderLine.LineLive | lib/bench_lock.py:124-131 | A written line claims an owner exactly when the cleaned profile does not begin with the eight letters of "released", each in either case. |
| HolderLine.LiveIsFirstWord | lib/bench_lock.py:124-131 | Whether any text claims an owner depends on its first word alone. |
| HolderLine.NoOwnerExactly | lib/bench_lock.py:69-71 | Any text claims no owner if and only if it has no words or its first word begins with r, e, l, e, a, s, e, d, each letter in either case. |
| HolderLine.LineSpelled | lib/bench_lock.py:208-216 | The written line, character for character: profile, then " pid=", " purpose=", " since=", " task=" and " host=" with their values. |
| HolderLine.HolderFields | lib/bench_lock.py:153-181 | A text without words has no holder; otherwise each field is what the words say for its key, and a task of "-" is none. |
| HolderLine.KeyAnyCase | lib/bench_lock.py:166-169 | A key counts in any case, and its value runs from the first `=` to the end of the word. |
| HolderLine.ShapedProfile | lib/bench_lock.py:170-171 | In the canonical shape the profile is the first word, whatever it is. |
| HolderLine.KeyedProfile | lib/bench_lock.py:170-171 | Out of that shape the profile is the value of the last profile= word that has one. |
| HolderLine.BareProfile | lib/bench_lock.py:172-174 | Without such a word it is the first word if that has no `=`, and empty otherwise. |
| BenchLease.RunKeeps | lib/bench_lock.py:540-615 | Every step of every window, check, probe, failure, collection and crash keeps the protocol invariant: one flock owner, phases agreeing with the lock table, and the file showing exactly as much of the owner's line as it has written. |
| BenchLease.OneWindow | lib/bench_lock.py:540-615 | In every state of every run from any file, at most one description owns the flock and at most one window is held, and while one is held the file is exactly its owner's line and the bench reads as held. |
| BenchLease.OnlyOwnerWrites | lib/bench_lock.py:561-615 | A step that changes the file is taken by the one flock owner, a window that is truncating, writing or clearing; probes and checks never write. |
| BenchLease.HeldStays | lib/bench_lock.py:81-87 | Over any steps of anybody, garbage collection of a forgotten lock included, a held window stays the only held one and its line stays in the file until it releases or its process dies. |
| BenchLease.CrashLeavesStale | lib/bench_lock.py:575-583 | After the owner of a held window dies, acquires without reclaim are refused as stale exactly when its profile does not begin with "released"; and then, whoever is open and whatever runs, the line stays, every such acquire is refused and nobody holds a window until a reclaiming acquire truncates the file. |
| BenchLease.StaleUntilReclaimed | lib/bench_lock.py:575-583 | The same of every reachable state in which a line claims an owner and nobody has the flock, wherever in its acquire or release the owner died: refused as stale, and the line stays through any run until a reclaiming truncate. |
| BenchLease.StaleStays | lib/bench_lock.py:575-583 | Over any run at all, reclaiming acquires that are turned away, fail or die included, a line that claims an owner stays until the first truncate of a reclaiming acquire. |
| BenchLease.LiveLineSafe | lib/bench_lock.py:572-583 | In every reachable state, a step that changes a file whose line claims an owner is a reclaim, or is taken by the flock's one owner, a window that is writing or clearing the line that stands there: no interleaving lets a window without reclaim overwrite it. |
| BenchLease.AcquireAlone | lib/bench_lock.py:540-595 | An acquire nobody interrupts enters exactly when no other description has the flock and the file claims no owner or reclaim is allowed; refused, it changes neither file nor flock nor any window. |
| BenchLease.ReleaseAlone | lib/bench_lock.py:597-615 | A release nobody interrupts drops the flock, empties the file and disturbs no other session. |
| BenchLease.ReleaseThenAcquire | lib/bench_lock.py:597-615 | After a release nobody interrupts the bench is free and the next acquire needs no reclaim. |
| BenchLease.ReleaseAmongOthers | lib/bench_lock.py:597-615 | Among any steps of others, before its truncate and after, a release that neither fails nor dies leaves the file empty until somebody writes a line, and whoever is granted the flock meanwhile enters without reclaim. |
| BenchLease.ForceReleaseAlone | lib/router_lock.py:107-116 | force_release empties a file without a flock behind it, and leaves a held bench exactly as it was. |
| BenchLease.FirstLineOfText | lib/bench_lock.py:219-224 | Reading the first line of a written file parses the same holder as reading the whole file. |
| BenchLease.StateForetells | lib/bench_lock.py:253-258 | bench_state says held, stale or free exactly as an acquire would find it if and only if the flock is taken or no blank first line hides a live one. |
| BenchLease.JudgedByFirstWord | lib/bench_lock.py:561-583 | A flocked bench refuses as busy; a free one refuses as stale exactly without reclaim and with a first word that does not begin with "released", letter by letter; else the acquire enters. |
| BenchLease.StateByFirstWord | lib/bench_lock.py:253-258 | bench_state is held by the flock alone, and otherwise stale exactly if the first line has a first word that does not begin so. |
| BenchLease.ReleasedByIsFree | lib/bench_lock.py:69-71 | Any file that begins "released by" is free, and an acquire enters without reclaim. |
| BenchLease.ClearsOnlyOwn | lib/bench_lock.py:601-609 | A release clears a written line exactly if the line names its own pid. |
| BenchLease.ClearsNameless | lib/bench_lock.py:601-609 | It also clears any line without `=`. |
| BenchLease.BlankLineMasks | lib/bench_lock.py:219-224 | Every text that claims an owner is hidden so by a blank line above it: free to bench_state, stale to an acquire. |
| BenchLease.NeverMasked | lib/bench_lock.py:253-258 | No run of these programs ever produces such a hidden line from a file without one. |
| BenchLease.ChildWindow | lib/bench_lock.py:466-493 | With nobody half way in or out, a child passes `require` for a pid exactly when a window of that pid is held. |
| BenchLease.ChildWindowExactly | lib/bench_lock.py:466-493 | In every state of every run, passing and holding agree if and only if nobody is half way in or out or the line in the file names another pid. |
| BenchLease.StaleLineLetsChildPass | lib/bench_lock.py:466-493 | For any two claims of different pids: half way into the heir's acquire, the dead window's child passes though no window of its pid is open. |
| BenchLease.BusyMeansWindow | lib/bench_lock.py:545-557 | In every reachable state an acquire is turned away exactly when its verdict is busy, and a busy refusal means that some window has the flock if and only if no probe or check is in flight. |
| BenchLease.ProbeTurnsAway | lib/bench_lock.py:232-250 | From any file, a probe in flight turns an acquire away while no window has the flock. |
| BenchLock.LockFile.Flock | lib/bench_lock.py:545 | The lock is granted exactly when no other description owns it. |
| BenchLock.LockFile.FlockHeld | lib/bench_lock.py:232-250 | The probe answers whether anybody owns the flock and leaves flock and file as they were. |
| BenchLock.BenchWindow.Acquire | lib/bench_lock.py:561-595 | The verdict is that of the protocol; entering leaves exactly this claim's line and the parsed holder, a refusal or a check leaves file, flock and window unchanged, a held window does nothing. |
| BenchLock.BenchWindow.Release | lib/bench_lock.py:597-615 | The flock is dropped on every path; the file is emptied unless an error comes before the truncate, which leaves the line; an error after it leaves an empty file; either error is raised. |
| BenchLock.BenchWindow.HolderIsOwn | lib/bench_lock.py:592-594 | The holder a held window reports is its own pid, folded profile and purpose, and time stamp. |
| BenchLock.RouterLock.Acquire | lib/router_lock.py:54-74 | An object that holds already raises and changes nothing; otherwise the bench's verdict, with `router:phase` as the purpose of the line. |
| BenchLock.RouterLock.Release | lib/router_lock.py:76-84 | A held lease is dropped and its line cleared unless an error comes first; an error keeps the object on its dead window; an object that holds nothing leaves the bench alone. |
| BenchLock.RouterLock.ForceRelease | lib/router_lock.py:107-116 | A bench without a flock ends unlocked and empty whatever its line said, or, if an error stops the clearing, with the reclaimer's line; a locked one refuses and keeps line and flock. |
| Venue.HardwareLock.Acquire | lib/hardware_lock.py:61-67 | With a remembered lock object it returns without touching the bench; otherwise the bench's verdict, and the lock is remembered exactly on entering. Success means owning the flock exactly if nothing was remembered or it was owned already. |
| Venue.HardwareLock.Release | lib/hardware_lock.py:69-74 | The flock is gone afterwards in every case; the object stays remembered exactly when the release raised. |
| Venue.HardwareLock.AcquireAfterFailedRelease | lib/hardware_lock.py:61-74 | A release that raises followed by an acquire: success is reported and nobody has the flock. |
| Venue.LabgridBench.Acquire | lib/labgrid_venue.py:99-109 | Success needs a call that arrives, is granted and answered. After a failure the place is this user's only if the undoing release was lost too, and a place the user held before is given up; after an error of another class nothing is undone. |
| Venue.LabgridBench.Release | lib/labgrid_venue.py:111-117 | The place is given up if the call arrives, and the object forgets it in any case. |
| Venue.PlaceSession | lib/labgrid_venue.py:350-357 | The part under the place: the body runs with the place in hand, and its end, the lost release and the body's own error come out in the order Python's finally gives them. |
| Venue.VenueMutex | lib/labgrid_venue.py:331-360 | How it ends, by what the calls, the disk and the body do: refused at the bench exactly by the bench's verdict; otherwise the last error raised, of the bench's release, the place's acquire or release, or the body; or none. With file_lock and a place not this user's before, the place is held only while the flock is if and only if the process remembered no lock object on entry, or one that still had the flock, or the place never came into its hand. Whose the place is afterwards, what the file holds and whether the lock object stays remembered follow from the calls and errors; with file_lock false the lease is untouched. |
| VenueProtocol.RunKeeps | lib/labgrid_venue.py:331-360 | Every step of every venue session, user of a hardware lock, place-only session, legacy bench user, client call, interruption and crash keeps the invariant: a window behind a remembered lock object or a session past its bench acquire is held until its release begins, and every place is in the name of a session that will give it up or is astray. |
| VenueRuns.VenueDiscipline | lib/labgrid_venue.py:331-360 | In every state of every run, a place in a full session's name whose holder is not astray is held by a session that is there, and the flock is behind it exactly if no release of its window has begun, and for certain if the session found no remembered lock object and never overlapped another on its process's hardware lock; nobody goes astray but by a death, an interruption, a lost release or a late grant. |
| VenueRuns.OrderlyDiscipline | lib/labgrid_venue.py:334-338 | If no process overlaps two sessions on its hardware lock, none of their releases raises and none is interrupted, every place of a full session that is not astray has the flock behind it, in every state of the run. |
| VenueRuns.BorrowsFlock | lib/hardware_lock.py:61-67 | A session of a process that remembers a lock object starts at once, without touching the bench, and has the flock exactly if that object still holds its window. |
| VenueRuns.FailedReleaseBreaks | lib/hardware_lock.py:61-74 | From any state in which a session is about to release a held window: if that release raises after clearing the line, its process enters again at once and gets its place, and a legacy window then takes the bench beside it. |
| VenueRuns.DisciplineBreaks | lib/hardware_lock.py:61-74 | Such a run exists from an empty file, for any two claims, user and place. |
| VenueRuns.NestedLetsGo | lib/hardware_lock.py:69-74 | A second session of the process, opened and ended while the first has its place, leaves the first with its place and the bench free. |
| VenueRuns.InterruptStrandsPlace | lib/labgrid_venue.py:99-109 | An error of another class after the grant leaves the place taken, the session leaving and nobody to release the place. |
| VenueRuns.VenueExcludes | lib/labgrid_venue.py:334-338 | In every reachable state, while the flock is behind a session no legacy window is held, and every other session inside has let its own go or goes by the same window in the same process, the latter never beside a session that is alone. |
| VenueRuns.CrashStrandsPlace | lib/labgrid_venue.py:350-360 | The death of a session's process frees the bench and leaves its place taken with nobody to release it. |
| VenueRuns.OrderKept | lib/labgrid_venue.py:338-341 | The order bench before place is kept by every run: one window has the bench, and one session alone goes by it or several of one process; who asks for the bench has no place; and a full session that asks for its place has the bench if it is alone or no release of its window has begun. |
| VenueRuns.WaitChainsAreShort | lib/labgrid_venue.py:338-341 | In every reachable state, a chain of sessions each asking for what the next one has is at most three long. |
| VenueRuns.NoCircularWait | lib/labgrid_venue.py:338-341 | In no reachable state does a circle of sessions, of any length, have each asking for what the next one has. |
| VenueRuns.BenchAlone | lib/labgrid_venue.py:350-351 | A session of a process that remembers nothing, whose bench acquire nobody disturbs, ends up holding its window exactly when the bench's verdict lets it in, and without a description open otherwise. |
| VenueRuns.PlaceAlone | lib/labgrid_venue.py:99-109 | Inside a held bench, with its place free and the client answering, a session gets its place and keeps the bench. |
| Cbor.Reader.Next | docs/v4-to-v3-converter.js:230-252 | The method over the shared offset returns the specified value and leaves the offset just behind it. |
| Cbor.Reader.Entries | docs/v4-to-v3-converter.js:311-321 | The map loop assigns keys from the left, later ones overwriting in place. |
| Cbor.ReadWire | docs/v4-to-v3-converter.js:226-324 | Every well-formed wire tree, whatever head widths it uses, followed by any bytes, is read as its meaning, consuming exactly its length. |
| Cbor.ReadSound | docs/v4-to-v3-converter.js:226-324 | Whatever the reader returns on arbitrary bytes is the meaning of a well-formed tree standing exactly where it read. |
| Cbor.ReaderAcceptsExactlyWire | docs/v4-to-v3-converter.js:226-324 | The reader succeeds at an offset if and only if a well-formed tree of RFC 8949 section 3, in the supported subset, stands there. |
| Cbor.WirePrefixFree | docs/v4-to-v3-converter.js:226-324 | No two different readings start at the same byte. |
| Cbor.FirstByteRefused | docs/v4-to-v3-converter.js:230-290 | Which first byte, at which distance from the end, draws which error: end of data, unsupported major type, indefinite length, unsupported length, out of range. |
| Cbor.PropertySet | docs/v4-to-v3-converter.js:311-321 | A key is set to its value, where it stood or as one more at the end; `__proto__` adds no property. |
| Base64.AtobBtoa | docs/v4-to-v3-converter.js:103 | `atob` undoes `btoa` on every byte string (RFC 4648 section 4). |
| Base64.SymbolCodes | docs/v4-to-v3-converter.js:103 | The alphabet of RFC 4648 section 4 by character codes. |
| Base64.TestVectors | docs/v4-to-v3-converter.js:103 | The test vectors of RFC 4648 section 10 for "f", "fo", "foo" and "foobar". |
| Base64.UrlLetters | docs/v4-to-v3-converter.js:103-105 | The url form differs from `btoa`'s in the letters of the two last symbols and in the padding, and in nothing else. |
| Base64.Pad | docs/v4-to-v3-converter.js:146 | The padding loop ends at the next multiple of four and adds only padding. |
| Base64.UrlRoundTrip | docs/v4-to-v3-converter.js:103-105 | Swapping letters back and padding undoes the url form with its padding stripped (RFC 4648 section 5). |
| Base64.DecodeEncoded | docs/v4-to-v3-converter.js:172-177 | Decoding the url form of any bytes gives those bytes. |
| TokenConverter.HexInjective | docs/v4-to-v3-converter.js:326-330 | Different byte strings have different hex texts. |
| TokenConverter.HexReadsBack | docs/v4-to-v3-converter.js:326-330 | Read back two digits at a time by character codes, the text is the bytes. |
| TokenConverter.CollectProofs | docs/v4-to-v3-converter.js:182-193 | The nested loops push every proof of every keyset once, in order, under its keyset's hex id. |
| TokenConverter.PushKeyset | docs/v4-to-v3-converter.js:185-192 | The inner loop pushes one keyset's proofs, in order, behind those before: each with its amount and secret, and with id and C that read back, two hexadecimal digits a byte, as the keyset's id and the proof's c. |
| TokenConverter.ComputeDecodeV4 | docs/v4-to-v3-converter.js:170-201 | The decoder as written, step by step, gives the specified outcome, each error included. |
| TokenConverter.V3RoundTrip | docs/v4-to-v3-converter.js:84-108 | For every token, encoding succeeds exactly when its text is Latin-1, and decoding what it returns gives the same mint, memo and proofs in order, and the unit, "sat" for none. |
| TokenConverter.V3Reads | docs/v4-to-v3-converter.js:143-168 | Any payload's V3 text decodes to its first entry's mint and proofs, its memo and its unit, "sat" for none; a payload without entries is an error. |
| TokenConverter.ConversionKeepsToken | docs/v4-to-v3-converter.js:31-57 | A decodable V4 token is converted exactly when its text is Latin-1, and then the V3 text decodes to the same mint, unit, memo and proofs; otherwise the original text is returned. |
| TokenConverter.V3Untouched | docs/v4-to-v3-converter.js:40-43 | A V3 token passes through unchanged, so converting twice is converting once. |
| TokenConverter.UriConversion | docs/v4-to-v3-converter.js:115-123 | Behind a URI scheme, whatever slashes or colons the tail begins with, a tail that starts with the version letter converts exactly as the bare token does, and any other tail, a whole token included, comes back unchanged. |
| TokenConverter.AmountConserved | docs/v4-to-v3-converter.js:182-193 | The proofs' total is the sum over all keyset entries. |
| TokenConverter.WireTokenConverted | docs/v4-to-v3-converter.js:31-57 | From the wire bytes of any readable token to the V3 text: same token, same total. |
| TokenConverter.TokenReadable | docs/v4-to-v3-converter.js:208-224 | A token written in the NUT-00 field layout, with any text, keysets and amounts below 2^32, reads back as itself. |
| TokenConverter.WalletTokenConverted | docs/v4-to-v3-converter.js:31-57 | End to end from a wallet's token: the V3 text is that of a payload with the token's mint twice, its memo, its unit or "sat", and every proof at its place behind those of the earlier keysets, with the same amount and secret and with id and C that spell the same bytes; the total is kept. |
| TokenConverter.ForeignUntouched | docs/v4-to-v3-converter.js:35-38 | A text that begins with neither "cashu" nor "web+cashu://" comes back unchanged. |
| TokenConverter.DamagedUntouched | docs/v4-to-v3-converter.js:49-56 | A V4 token whose payload is no base64, or whose bytes the reader refuses, comes back unchanged. |
| TokenConverter.WalletTokenKept | docs/v4-to-v3-converter.js:49-56 | A wallet's token with any text outside Latin-1 comes back as it was. |
| TokenConverter.NonLatinTokenKept | docs/v4-to-v3-converter.js:49-56 | For every decoder that ever reads text outside Latin-1 there is such a token, well formed and decodable: that text as its mint and nothing else. |
| LawfulInstances.LawfulJson | docs/v4-to-v3-converter.js:84-108 | What is assumed of JSON holds of a concrete printer and its inverse. |
| Bech32.ComputePolymod | docs/app.js:465-476 | The double loop with shifts, masks and generators computes the polynomial remainder, within 30 bits. |
| Bech32.GeneratorsSpelled | docs/app.js:465-476 | The five generators are the multiples, by powers of two in GF(32), of the generator polynomial BIP 173 gives by its coefficients. |
| Bech32.StepLinear | docs/app.js:468-474 | One step of the register is linear over GF(2) in register and symbol together. |
| Bech32.FoldLinear | docs/app.js:465-476 | The whole register is linear in the symbols, at any length. |
| Bech32.StepZeroInjective | docs/app.js:468-474 | A zero symbol never clears a nonzero register. |
| Bech32.BurstChangesPolymod | docs/app.js:465-476 | For words of any length, a change within six consecutive positions leaves the checksum equal if and only if it is no change. |
| Bech32.BurstDetected | lib/mock_router.py:321-329 | A string whose checksum is valid never checks after a nonempty change of up to six neighbouring symbols. |
| Bech32.SwapDetected | lib/mock_router.py:321-329 | Swapping two different neighbouring symbols is always detected. |
| Bech32.ComputeChecksum | docs/app.js:483-491 | The created six symbols make the polymod of prefix, data and checksum one. |
| Bech32.ChecksumUnique | lib/mock_router.py:351-353 | The created checksum is the only six-symbol suffix that checks, for either prefix expansion. |
| Regroup.ConvertBits | docs/app.js:493-512 | The never-masked 32-bit wrapping accumulator yields exactly the symbols that spell the input bits; it refuses exactly an out-of-range symbol or, without padding, leftover bits that are too many or nonzero. |
| Regroup.GrowingConvert | lib/mock_router.py:340-350 | The unbounded accumulator yields the symbols of the same definition. |
| Regroup.BitSpelled | docs/app.js:493-512 | The bits of a symbol stand from the highest down. |
| Regroup.FlattenSpelled | docs/app.js:493-512 | The bits of a list stand symbol after symbol. |
| Regroup.RegroupUnique | docs/app.js:493-512 | The result is determined by the input bits, so both accumulators agree at every length. |
| Regroup.RegroupRoundTrip | docs/app.js:493-512 | Widening with padding and narrowing without is the identity and is never refused. |
| Regroup.RegroupInjective | docs/app.js:493-512 | Inputs of one length are never identified. |
| Npub.HexToBytes | docs/app.js:514-520 | For any text, the pairwise loop collects what parseInt makes of each pair, a lone last character included. |
| Npub.ParsesPair | docs/app.js:517 | What parseInt makes of any two characters, as a table: two digits, one digit before a stranger, a sign or blank before a digit, the prefix "0x", or no number. |
| Npub.HexToNpub | docs/app.js:522-530 | For any text: the result is empty exactly when it is not 64 characters or a pair is a minus before a nonzero digit; otherwise it is prefix, "1", the symbols of the pairs' numbers and their checksum. |
| Npub.RouterEncode | lib/mock_router.py:336-354 | The router's encoder spells the bytes' symbols and a checksum that satisfies BIP 173. |
| Npub.RouterTextReads | lib/mock_router.py:336-354 | Read back by the charset, its text is the prefix, "1", symbols that spell the bytes bit by bit, and six that make the checksum over the expanded prefix good. |
| Npub.NpubReads | docs/app.js:522-530 | Read back by the charset, an npub is "npub1", 52 symbols that spell the pairs' numbers bit by bit, and six that make the checksum over 3, 3, 3, 3, 14, 16, 21, 2 good. |
| Npub.ExpansionsSpelled | docs/app.js:478-481 | Both prefix expansions, by the codes of the prefix: the high parts, then low parts below 32 that make up the codes with them, with a zero between for the router and nothing for the dashboard. |
| Npub.SameNpubIff | docs/app.js:522-530 | Two texts that are not refused have the same npub if and only if their pairs read as the same numbers. |
| Npub.NpubInjective | docs/app.js:522-530 | Two keys of 64 hex digits have the same npub if and only if they are the same key up to the case of their digits. |
| Npub.TailKeepsApart | docs/app.js:465-476 | Equal tails keep different registers different. |
| Npub.ExpansionsAgreeIff | docs/app.js:478-481 | The two prefix expansions give the same checksum of any tail exactly when the separator's zero leaves the register alone. |
| Npub.NpubFailsBip173 | docs/app.js:478-491 | No data's dashboard checksum passes the check with the separator in place. |
| MockMint.BlindSignatureVerifies | lib/mock_mint.py:219-233 | NUT-00: over any abelian group with scalar action, the unblinded signature of a blinded output is the proof create_proof makes, and it verifies. |
| LawfulInstances.LawfulCurve | lib/mock_mint.py:219-233 | What is assumed of the curve holds of addition modulo 2. |
| MockMint.VerifiesExactlyCreated | lib/mock_mint.py:186-200 | A proof verifies if and only if it is the created one for its amount and secret. |
| MockMint.Mint.HandleSwap | lib/mock_mint.py:235-275 | An injected error comes first and touches only its counter. Otherwise the secrets of the first inputs that verify, are unspent and distinct are marked; the next input is refused as invalid exactly if it does not verify, and as already spent exactly if it verifies and its secret was spent before or just now; and with all taken, every output is signed with the key of its amount under the keyset's id, unless one cannot be and it raises. |
| MockMint.RefusedAt | lib/mock_mint.py:246-258 | The same of the specification, at any inputs and spent set. |
| MockMint.Mint.HandleCheckstate | lib/mock_mint.py:277-289 | Each asked point in order is SPENT exactly when it is in the spent set. |
| MockMint.NoDoubleSpend | lib/mock_mint.py:235-289 | Over any run, each secret is marked at most once, the spent set is what was there plus what was marked, and the spent points are exactly its images. |
| MockMint.MarkedIsPrefix | lib/mock_mint.py:246-258 | What one swap marks are the secrets of its first inputs, in order, each a proof that verifies; all of them exactly when nothing is refused. |
| MockMint.MarkedWereSpent | lib/mock_mint.py:246-258 | Whatever a run marks is the secret of a verifying input of some swap of that run. |
| MockMint.SpentExactlyMarked | lib/mock_mint.py:277-289 | After any run of a fresh mint, a point reads as spent if and only if it is the text of the hashed point of a marked secret. |
| MockMint.AllTakenIff | lib/mock_mint.py:246-258 | A swap takes all its inputs if and only if each verifies, none is spent and no two share a secret. |
| MockMint.SwappedCoinsSpend | lib/mock_mint.py:260-275 | What a swap signs can be swapped again: the unblinded coins are all taken later exactly when their secrets are distinct and unspent. |
| ArReader.ReadMembers | lib/deploy.py:181-211 | The cursor loop with its early exits stays in bounds, ends, and collects what the specification collects. |
| ArReader.ComputeRepack | lib/deploy.py:173-216 | The file is left alone exactly when it is gzip, lacks the magic or has no members. |
| ArReader.LeftAlone | lib/deploy.py:176-183 | A gzip file, and one that does not begin with "!<arch>" and a newline, are left alone. |
| ArReader.OddHeader | lib/deploy.py:187-198 | Behind whole members, a header with a blank size ends the reading with those members, and one that int() refuses raises. |
| ArReader.HeaderReads | lib/deploy.py:190-200 | Name and size of a written header read back, blanks and closing slashes of the name field included. |
| ArReader.ArchiveCut | lib/deploy.py:187-211 | An archive cut after any byte behind the magic gives exactly the members whose content ends before the cut. |
| ArReader.ArchiveRoundTrip | lib/deploy.py:181-211 | Members with distinct names come back exactly, in order. |
| RunFeed.DedupeRuns | docs/app.js:737-754 | The loop over a batch keeps per run id the first among its newest events, then sorts. |
| RunFeed.DedupeExactly | docs/app.js:737-754 | A batch shows exactly the runs of the winning events, each with its own event's detail: a readable 30078 that is newer than every earlier such event of its run and not older than any later one. |
| RunFeed.Dashboard.HandleLiveEvent | docs/app.js:288-327 | A live event overwrites its run in place if strictly newer, is put in front if the run is unknown, and is ignored if unreadable or of another kind. |
| RunFeed.LiveExactly | docs/app.js:288-327 | The same by kind, ids and time stamps: other kinds and unreadable events change nothing, a new run goes to the front, and the first entry of a known run is overwritten whole exactly by a strictly newer event. |
| RunFeed.Dashboard.Load | docs/app.js:3911-3926 | The list becomes the deduplicated batch followed by the cached runs of other keys. |
| RunFeed.MissingExactly | docs/app.js:3919-3921 | What loading keeps of the cache are exactly the runs whose id and source the batch does not have, in their order. |
| RunFeed.BatchShows | docs/app.js:737-754 | A batch shows one run per id, the one the event-by-event reference selects. |
| RunFeed.LiveRefinesBatch | docs/app.js:288-308 | From an empty cache, a batch and then any live events keep one run per id and show, for every id, the same event as deduplicating both in one pass, ties included. |
| RunFeed.LoadedShows | docs/app.js:3916-3926 | Over a cache, a run the batch has shows the batch's event, any other the cached one. |
| RunFeed.SortIsStable | docs/app.js:753 | The list falls by time stamp, is a permutation, and keeps equal times in order. |
| RunFeed.JobBoard.HandleCvmJobEvent | docs/app.js:3278-3287 | List and map always hold the same jobs, each once. A known job changes nothing; a new one stands in front, the others behind it in their order, and of more than 200 the last falls off. |
| RunFeed.AddJobExactly | docs/app.js:3278-3285 | On any board of at most 200 jobs, a known job changes nothing and a new one stands in front of the newest, of which at most 200 stay. |
| TokenPool.PoolConserves | lib/cashu.py:480-547 | Over every interleaving, tokens leave the pool in the order they were minted with none lost or doubled, queued tokens and mint calls under way never exceed the pool size, and distinct tokens are never handed out twice. |
| TokenPool.NeverLow | lib/cashu.py:523-531 | Without failed mints and drains, three tokens are always queued or on their way. |
| TokenPool.DryStaysDry | lib/cashu.py:513-531 | Empty with no mint call under way, the pool hands out nothing ever again. |
| TokenPool.StillFlows | lib/cashu.py:513-531 | While a token is queued or on its way, some steps lead to one more token handed out. |
| TokenPool.DryExactly | lib/cashu.py:513-531 | The pool never hands out anything again if and only if nothing is queued and nothing is on its way. |
| TokenPool.Pool.constructor | lib/cashu.py:491-511 | Prefilling queues the answers that came, in order, and ends with no call under way. |
| TokenPool.Pool.MintToken | lib/cashu.py:523-531 | mint(4) pops the oldest token and starts one thread when fewer than three are left; on an empty queue or for any other amount it asks the minter and touches nothing. |
| TokenPool.Pool.MintFreshToken | lib/cashu.py:533-538 | A fresh mint leaves queue and calls alone and returns what the minter gives. |
| TokenPool.Pool.Replenish | lib/cashu.py:513-520 | A replenish thread ends: its token, if one came, is queued last, and one call fewer is under way. |
| TokenPool.Pool.DrainAll | lib/cashu.py:540-547 | drain empties the queue and reports how many it dropped. |
| ReleaseRank.ComputeRank | lib/install_paths.py:176-208 | The parser with its loops computes the specified rank, telling unparsable tags from numbers that raise. |
| ReleaseRank.RankReadsComponents | lib/install_paths.py:176-208 | The rank of a printed tag, with or without v, dots and numbers, is its components. |
| ReleaseRank.PrintSpelled | lib/install_paths.py:176-208 | The printed tags, character for character. |
| ReleaseRank.NoNumberFirst | lib/install_paths.py:184-191 | A tag that, blanks and a leading v apart, is empty or begins with anything but a digit is refused. |
| ReleaseRank.TwoNumbers | lib/install_paths.py:192-194 | A tag of two numbers has patch zero. |
| ReleaseRank.OneNumber | lib/install_paths.py:192-194 | A tag of one number has minor and patch zero. |
| ReleaseRank.BadNumberRaises | lib/install_paths.py:194 | A second or third number that int() refuses raises, whatever follows. |
| ReleaseRank.SegmentAnyCase | lib/install_paths.py:172-173 | The words of a segment count in any case. |
| ReleaseRank.OtherSegment | lib/install_paths.py:198-207 | A segment that begins with none of the words' letters counts for nothing. |
| ReleaseRank.AtLeastIsTotalPreorder | lib/install_paths.py:211-213 | On all tags that parse, release_at_least is reflexive, total and transitive, and mutual exactly for equal ranks. |
| ReleaseRank.AtLeastAgreesWithNumbers | lib/install_paths.py:211-213 | On printed tags it is the numeric order of major, minor, patch, then stage, stage number and pre or post number. |
| ReleaseRank.PreAndPost | lib/install_paths.py:176-208 | For any release, staged or not: a pre-N precedes it, a post-N does not, and the post has the release's own rank if and only if its number is 0. |
| ReleaseRank.StageBeforeFinal | lib/install_paths.py:176-208 | Every stage precedes the final release of the same numbers, whatever pre or post marks either bears. |

## Left out

- SSH, subprocess, browser, WebSocket, QEMU and report plumbing: foreign effects around the modelled logic.
- JSON, UTF-8 text decoding, SHA-256 and secp256k1: parameters with stated laws (`TokenConverter.Lawful`, `MockMint.Lawful`).
- BenchLock.BenchWindow.Acquire: one call runs with nobody else moving; what others do between its kernel calls, and acquires that die half way, are in BenchLease.
- BenchLease.ChildWindow: the probe and the read of the line are one step; the answer can also change between the two.
- HolderLine.ComputeHolder: decimal digits outside ASCII in a foreign pid field are not digits here, which matters only to the profile of a line with such a pid and `=` in its first word.
- Venue.VenueMutex: one session while nobody else moves, for the order of its effects and errors; what others do meanwhile is VenueProtocol and VenueRuns. The body touches neither mutex, and the coordinator is a table with one user per place that lets a user release whatever the same user holds; venue planning and target resolution would only add easy members.
- VenueProtocol.RunKeeps: a session without its own bench half is not tied to the window its process holds elsewhere; a client call takes effect before its answer or, given up, later at most once; the body touches neither mutex; two threads of one process are not both inside the release of one lock object.
- VenueRuns.NoCircularWait: the calls in the source never block, so waiting is asking for something another session has.
- Cbor.Reader.Next: a `__proto__` key's effect on the object's prototype, objects with their own toString as keys, and stack depth.
- TokenConverter.ConversionKeepsToken: V4 templates whose fields have other JavaScript types are one outcome of their own and nothing is claimed about them.
- Npub.HexToNpub: characters are code points; the source counts a character outside the basic plane as two.
- Regroup.ConvertBits: inputs are 32-bit integers, and the two widths add up to at most 32.
- MockMint.Mint.HandleSwap: a request is one step; races between server threads, and totals of inputs and outputs, which the source never compares.
- ArReader.ReadMembers: stops with an outcome of its own at a negative size field, where the source's cursor may move backwards.
- RunFeed.LiveRefinesBatch: time stamps are integers, and what an event parses to beyond ids and time is a parameter; the display id cache and rendering.
- RunFeed.Dashboard.HandleLiveEvent: runs are values in the list, so a run object also referenced elsewhere in the page is not seen to change.
- ReleaseRank.ComputeRank: digits outside ASCII, which the source's isdigit and \d accept.
- Discovery and pruning of legacy lock files, protected-device tables, flashing guards, the policy preflight and newest-artifact selection: marker tables and short guards.
- The mock router's payment endpoint and its set of seen tokens: one membership test.
