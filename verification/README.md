# Verified core of an OSCAR chat server

A Dafny model of the codec and of the stateful protocols of the server, with
proofs that hold for all inputs, all runs and all interleavings. Handlers that
only fill in replies are not modelled. `dafny verify dfyconfig.toml` checks
everything.

| part | files |
|---|---|
| Wire codec: schemas, the two marshallers, round trip, canonical encodings, TLVs, FLAP frames, cookies | `Wrappers`, `Bytes`, `Tags`, `Codec`, `Marshaller`, `RoundTrip`, `Canonical`, `Tlv`, `Frames`, `Cookie`, `Layouts` |
| Rate limiter: 32-bit arithmetic, runs of sends and observations, the five classes of a session | `RateLimit`, `RateRuns`, `SessionRates`, `SessionRuns` |
| Session registry: interleaved threads, the critical sections, the instances of a session | `Registry`, `SessionManager`, `Instances` |
| Feedbag list: items shared by pointer, pending changes, how they are saved, order attributes | `ScreenNames`, `Counting`, `FeedbagItems`, `FeedbagBatch`, `FeedbagReplay`, `FeedbagRuns`, `FeedbagSaves`, `FeedbagOrder`, `FeedbagOutcomes`, `FeedbagList` |
| Key directory: manifests, storage, runs, the service, device attestation | `Manifest`, `KeyDirectory`, `KeyDirRuns`, `KeyDirService`, `KeyDirOutcomes`, `DeviceAuth`, `DeviceAuthOutcomes` |
| Relationship query as relational algebra | `Relationship`, `RelationshipOutcomes` |
| Consent between AIM users, and the store of offline messages | `Consent`, `ConsentRuns`, `ConsentOutcomes`, `ConsentService`, `Mailbox`, `MailboxService` |

How the parts are built:

- Code that changes things step by step is a class whose methods carry the
  loops and are proved equal to functions on the old state; the properties are
  then lemmas about those functions and about runs of them.
- What a function on the state comes to is said a second time, in `Layouts`,
  `SessionRuns` and the `Outcomes` modules, of literal bytes, numbers, rows and fields,
  without the function's own helpers.
- Go's reflection over struct types is a `Schema` datatype, a Go value a
  `Value`. A reader is the bytes it has left, and `EOF` is kept apart from
  `UnexpectedEOF`. A Go loop that would never end, because an element takes no
  bytes, is the result `Stuck`.
- Objects that are shared or outlive a map entry (lock objects, session slots,
  feedbag items) are indices into growing tables, so identity and aliasing are
  part of the model. What a critical section of the source does is one step of
  the interleaved system.
- SQL statements are steps on maps, sets and lists of rows; three-valued flags
  and outer joins are written out.
- HMAC and Ed25519 verification are parameters of which only the length of a
  tag is used. Clocks, random numbers, nonces, sessions being online and what
  the block check says are parameters of the operations.

What the proofs found out about the code:

- A TLV block without a prefix that is cut at a field boundary is accepted as
  complete: `CutTLVRestBlock`. The prefixed blocks never are: `CutBlockFails`.
- A long pause can wrap the 32-bit average and disconnect the client that
  speaks next; for the default classes from about 24.8 days on.
  `LongPauseDisconnects` says exactly when, `ExactUnlessWrapped` when the level is
  still right: some longer pauses are harmless again.
- Saving updates before deletes loses an entry whose key was given out again in
  the same batch (`ReusedKeyExample`), and saving deletes first brings back an
  item that was updated and deleted (`DeletesFirstExample`). `UpsertsThenDeletes` and
  `DeletesThenUpserts` say exactly when each order is right.
- A list without a root in which another item has the key (0, 0) loses that item
  when a group is added, and a permit, deny or mode item stored outside group 0
  leaves its old row behind when it is written again: `PermitLostExample`,
  `StrayDenyExample` and, for the exact condition, `OneOperationSavedIff`.
- `SetRateClasses` swaps the subscriptions with the last observed ones, so a
  second call on one session would lose a new subscription (`SubscriptionLost`,
  `SubscribedIff`). No caller makes one: the server sets the classes of a session
  once and after that no subscription is lost (`SubscribedAfterOnlySet`).
- The search for an item ID skips the one number before its start, so it can
  come back empty with one ID free: `GenIDFailsIff`.
- The comments in `DeleteItem` call removal notices one-shot. Their number is
  bounded by the grants exactly between accounts that both require authorization
  (`NoticesBoundedIff`); to another account every such removal sends one
  (`NoticesRepeat`).
- An accept needs no request before it, so a user who was just removed can
  open the connection again alone: `AcceptConnects`. Where every grant comes from is
  `MailGrantsComeFrom`.
- The web API sends messages between AIM users without asking for consent:
  `WebAsksNoConsent`. Of the modelled ways it is the only one in which a message
  is sent after a removal (`SeveredTalkOnlyByWeb`); what was stored before can still
  be retrieved after it (`RemovalSilencesMail`).
- A multi-session sign-on can join a session that was removed meanwhile
  (`JoinedIsStoredIff`), and a session's close callback can run twice, though never
  not at all (`SessionCloseIsCalledTwice`, `SessionCloseIsCalled`).

## Model

| member | source | states |
|---|---|---|
| Tags.ParseOSCARTag | wire/encode.go:220-290 | A struct tag is accepted exactly if every piece is a known key with an allowed value, at most one names a quirk, and a length and a count prefix do not both appear; a repeated prefix counts with its last width |
| Tags.SplitJoin | wire/encode.go:228-233 | Splitting the comma-joined pieces of a tag gives the pieces back |
| Tags.EntryIs | wire/encode.go:240-285 | Every key and value there is: the two prefixes in the two widths, a quirk with a name, optional and nullterm; anything else is unknown |
| Tags.MeaningNext | wire/encode.go:240-285 | What each entry sets, the last prefix of a kind counting; a tag without entries sets nothing |
| Tags.PaddingGoes | wire/encode.go:233-243 | White space around a piece is ignored |
| Tags.TrailingGoes | wire/encode.go:233-243 | At its end too |
| Marshaller.Marshal | wire/encode.go:37-76 | Appends exactly the encoding of the value to the writer, and fails exactly for the types and values that have none |
| Marshaller.MarshalString | wire/encode.go:133-147 | A string is its length prefix, its bytes and, if not empty, a NUL; the prefix keeps only the low bytes of the length |
| Marshaller.MarshalSlice | wire/encode.go:102-131 | Elements are encoded into a buffer, then written after their byte length or their count, or bare |
| Marshaller.MarshalElems | wire/encode.go:105-115 | The loop over struct elements, and the bulk write of fixed-size ones, concatenate the element encodings |
| Marshaller.MarshalStruct | wire/encode.go:149-191 | A struct with a length prefix is buffered first; one without is written field by field |
| Marshaller.MarshalFields | wire/encode.go:155-173 | Fields in order; a pointer before the last field is an error |
| Bytes.PutTruncates | wire/encode.go:193-207 | Writing a length in one or two bytes loses all but its low bytes, silently |
| Bytes.PutUintAt | wire/encode.go:193-207 | Byte i of a number of w bytes: big-endian writes the most significant byte first, little-endian the least significant |
| Bytes.GetTwo | wire/decode.go:314-333 | How much each of two bytes counts in either order |
| Marshaller.Unmarshal | wire/decode.go:31-94 | Returns the decoded value, or the error with EOF kept apart from UnexpectedEOF, and leaves exactly the unread bytes; an optional that meets EOF is absent |
| Marshaller.UnmarshalUint | wire/decode.go:314-333 | A prefix of one or two bytes in either byte order |
| Marshaller.UnmarshalBlock | wire/decode.go:116-126 | A length and as many bytes, none of which are read if the length is zero |
| Marshaller.UnmarshalElems | wire/decode.go:96-109 | Exactly n elements, for arrays and counted slices; the first error ends the loop |
| Marshaller.UnmarshalSlice | wire/decode.go:111-161 | The three ways a slice ends: its block is used up, its count is reached, or the input ends |
| Marshaller.UnmarshalAll | wire/decode.go:126-133 | Elements until a length-prefixed block is empty |
| Marshaller.UnmarshalRest | wire/decode.go:147-158 | Elements until one meets EOF, which ends the slice; UnexpectedEOF is an error |
| Marshaller.UnmarshalStruct | wire/decode.go:281-312 | Fields, inside their own block if there is a length prefix; what is left of the block is dropped |
| Marshaller.UnmarshalFields | wire/decode.go:292-309 | Fields in order; an optional before the last field is an error |
| RoundTrip.DecodeEncode | wire/encode.go:37-207 | For every schema with rest slices and optionals only in tail position and every value that fits its prefixes and has no NUL in NUL-terminated strings, encoding succeeds and decoding gives back the value and leaves exactly the bytes after it |
| RoundTrip.UpToNulOfTerminated | wire/decode.go:254-279 | Cutting at the first NUL undoes the NUL that encoding adds |
| RoundTrip.RestDecodeEncode | wire/decode.go:147-158 | A rest slice reads back all its elements, because every element takes a byte and nothing reads as EOF |
| RoundTrip.DecodeNothing | wire/decode.go:148-154 | Decoding from an empty reader meets EOF, not UnexpectedEOF, for every element type that always takes a byte |
| Canonical.EncodeDecode | wire/decode.go:31-161 | On schemas of integers, arrays, prefixed strings and prefixed slices, a decoded value fits its type, and re-encoding it gives exactly the bytes that were consumed |
| Canonical.RoundTripsIffFits | wire/encode.go:117-125 | On these schemas a value survives the round trip if and only if its lengths fit their prefixes |
| Canonical.UniquelyDecodable | wire/encode.go:37-76 | Two values with bytes after them that encode to the same stream are equal, and so are the bytes after them |
| Canonical.CutEncodingFails | wire/decode.go:314-333 | Every proper prefix of an encoding is rejected |
| Layouts.StringLayout | wire/encode.go:133-147 | An empty string is a zero length and nothing else; one that is not empty counts its NUL, if it has one |
| Layouts.StringsRead | wire/decode.go:254-279 | Literal bytes: a string ends at its first NUL if its tag says so, and where it is cut off decides the error |
| Layouts.SlicesWritten | wire/encode.go:102-131 | Literal bytes of one slice under each extent and in both byte orders |
| Layouts.StructsWritten | wire/encode.go:149-191 | Literal bytes of a struct with and without prefix, and of an optional that is there or absent |
| Layouts.StructsRead | wire/decode.go:281-312 | Literal bytes: the rest of a struct's block is dropped; an optional is absent at the end of the input only; no field may follow one |
| Tlv.TLVListEncoding | wire/tlv.go:123-133 | A TLV list is written as the concatenation of tag, two-byte length and value of each TLV, and fits exactly if every value has at most 65535 bytes |
| Layouts.TLVLayout | wire/tlv.go:12-15 | A TLV byte by byte in both byte orders |
| Layouts.TwoTLVs | wire/tlv.go:123-133 | Literal bytes of a list of two TLVs in both byte orders |
| Tlv.BlockEncoding | wire/tlv.go:102-133 | A block of TLVs is written as their number, or the bytes they take, in two bytes and then the TLVs, and fits exactly if each value and that number are at most 65535 |
| Tlv.CutTLV | wire/decode.go:147-158 | A TLV cut before its tag, after its tag or after its length fails with EOF, cut anywhere else with UnexpectedEOF |
| Tlv.CutTLVRestBlock | wire/decode.go:147-158 | For every TLV list and every cut: at a field boundary decoding returns exactly the complete TLVs before the cut, inside a tag, length or value it fails |
| Tlv.CutBlockFails | wire/decode.go:111-144 | A block that announces the number or the length of its TLVs is rejected when it is cut anywhere |
| Tlv.CutPointSplits | wire/decode.go:147-158 | The cut point is where the cut falls: whole TLVs, and so many bytes of the next one |
| Tlv.RestAfterComplete | wire/decode.go:147-158 | Decoding complete TLVs followed by anything returns the TLVs and then does what the rest makes it do |
| Frames.FrameArrives | wire/frames.go:157-164 | A frame is read back as sent, whatever follows, if its payload has at most 65535 bytes; with a longer one it is never read back as sent |
| Layouts.FrameLayout | wire/frames.go:26-34 | A frame byte by byte: 42, type, number, length, most significant byte first, and the payload |
| Layouts.EmptyFrame | wire/frames.go:26-34 | The empty data frame numbered 1 is 42, 2, 0, 1, 0, 0 and is read back from these bytes |
| Layouts.SNACLayout | wire/frames.go:46-54 | A SNAC header byte by byte |
| Layouts.SignonLayout | wire/frames.go:110-138 | A sign-on payload is the version 1 in four bytes and the TLVs |
| Layouts.SignoffLayout | wire/frames.go:173-183 | The old sign-off frame is 42, 4 and its number |
| Frames.StreamArrives | wire/frames.go:110-138 | Any sequence of sends decodes frame by frame, to the last byte, into the same types and payloads with consecutive 16-bit sequence numbers, if and only if every payload has at most 65535 bytes |
| Frames.LogAppend | wire/frames.go:242-258 | One more send adds one frame to the stream and one to a counter that wraps at 2^32, and the 16-bit numbers stay consecutive |
| Frames.SNACArrives | wire/frames.go:216-240 | A SNAC whose body round-trips in tail position is read back with its header, whatever follows in the stream |
| Frames.OldSignoffEndsStream | wire/frames.go:173-183 | To a receiver the old sign-off frame, which has no length, is the end of the input |
| Frames.FlapClient.constructor | wire/frames.go:82-89 | A client starts with the given counter and nothing sent |
| Frames.FlapClient.SendDataFrame | wire/frames.go:242-258 | Sends the payload as a data frame numbered by the counter |
| Frames.FlapClient.SendKeepAliveFrame | wire/frames.go:260-275 | Sends an empty keep-alive frame |
| Frames.FlapClient.SendSignonFrame | wire/frames.go:110-138 | Sends version 1 and the TLVs as a sign-on frame |
| Frames.FlapClient.NewSignoff | wire/frames.go:191-213 | Sends the TLVs as a sign-off frame |
| Frames.FlapClient.SendSNAC | wire/frames.go:216-240 | Sends header and body as one data frame, or nothing if the body does not marshal |
| Frames.FlapClient.OldSignoff | wire/frames.go:173-183 | Writes a frame without length and does not count it |
| Frames.FlapClient.ReceiveFLAP | wire/frames.go:157-164 | Reads one frame or the error, leaving the bytes after it |
| Frames.FlapClient.ReceiveSNAC | wire/frames.go:278-288 | Reads a frame and out of its payload a SNAC header and a body |
| Cookie.CookieBaker.Issue | state/cookie.go:45-76 | Succeeds exactly for at most 214 bytes of data and always returns 256 bytes: payload, tag and zero padding |
| Cookie.CookieBaker.Crack | state/cookie.go:78-99 | Returns the data of an unexpired cookie under a correct tag, and nothing otherwise |
| Cookie.CrackIssued | state/cookie.go:45-99 | Whatever padding follows, an issued cookie cracks to its data until it expires and to nothing after that |
| Cookie.CrackedIsSigned | state/cookie.go:111-124 | A cookie that cracks begins with some payload under its correct tag |
| Layouts.CookieLayout | state/cookie.go:45-76 | A cookie byte by byte: the length of the signed part, the second of its expiry one minute after issue, the data with its length, and the 32 bytes of tag with theirs |
| Layouts.CookieLastsAMinute | state/cookie.go:45-99 | It gives its data back up to the start of the second one minute after its issue, and never after |
| RateLimit.ElapsedOutcome | wire/rate_limit.go:534-535 | Elapsed time is whole milliseconds, rounded toward zero, of a difference that saturates at 292 years either way |
| RateLimit.CheckIsExact | wire/rate_limit.go:526-563 | While gaps stay below a bound given by the class, the truncating 32-bit computation yields the exact clamped average and its status |
| RateLimit.LongPauseDisconnects | wire/rate_limit.go:526-563 | For every level and every two times: a send disconnects if and only if the sum level * (windowSize - 1) + elapsed, wrapped to 32 bits, is below windowSize * disconnectLevel |
| RateLimit.ExactUnlessWrapped | wire/rate_limit.go:534-543 | For every gap: the new level is the exact clamped average if and only if the sum fits 32 bits, or what is left after wrapping still reaches windowSize * maxLevel |
| RateLimit.ShortPauseKeeps | wire/rate_limit.go:534-549 | No pause up to the class's bound disconnects a client that rests at the maximum level |
| RateLimit.LongPauseExample | wire/rate_limit.go:48-132 | Second default class, resting at its maximum: 2,146,298,647 ms is harmless, one more disconnects, so do 30 days; 4,294,972,296 ms lowers the level to 14875, and 60 days are harmless again |
| RateLimit.DefaultClassesOrdered | wire/rate_limit.go:48-132 | The default classes have ordered thresholds and no overflow below 2,146,298,648 ms |
| RateLimit.NextMonotone | wire/rate_limit.go:537-543 | A higher level before a send is no lower after it |
| RateLimit.NextBetween | wire/rate_limit.go:537-543 | The new level lies between the old one and the gap, unless clamped |
| SessionRuns.StatusOf | wire/rate_limit.go:544-562 | The status of a level, all four of them: disconnect below the disconnect level; a limited client stays so below the clear level; any other is limited below the limit level, alerted below the alert level and clear from both on |
| RateRuns.ObserversNeverHurt | state/session.go:405-461 | For every run whose gaps are at most INT32_MAX - maxLevel * (windowSize - 1) ms and every way of inserting observations into it: up to a disconnect of the unobserved run, each send finds at least the same level, is limited only if it was, and is refused only if it was |
| RateRuns.GapLimitIsSharp | state/session.go:405-461 | That bound is the largest: observing never hurts any run with gaps up to a limit if and only if the limit is at most the bound, for every class with a window of at least 2 whose maxLevel * windowSize is within it |
| RateRuns.DefaultClassesSharp | wire/rate_limit.go:48-132 | The default classes are such classes |
| RateRuns.ObserverHurtsPastLimit | state/session.go:436-449 | Second default class: one millisecond past the bound an observation makes the next send disconnect, which without it is clear |
| RateRuns.ObserveTwice | state/session.go:428-461 | A second observation at the same instant changes nothing |
| RateRuns.DecayBounds | wire/rate_limit.go:537-538 | Sending k times at a constant gap g from a level of at least g: the level stays between two geometric sequences with ratio (w-1)/w |
| RateRuns.SlowSendersAreNeverLimited | wire/rate_limit.go:547-560 | Gaps of at least the limit level never limit or disconnect a client that starts at or above it |
| RateRuns.FastSendersSink | wire/rate_limit.go:537-560 | Gaps below the limit level cost at least one level for every send that is still accepted |
| RateRuns.FastSendersAreRefused | wire/rate_limit.go:537-560 | With such gaps one of the first maxLevel - limitLevel + 1 sends is limited or disconnects |
| RateRuns.LimitedUntilClear | wire/rate_limit.go:547-553 | Once limited, a send is answered Limited or Disconnect until the level reaches the clear level |
| RateRuns.PatientSendersRise | wire/rate_limit.go:537-553 | Gaps of at least clearLevel + windowSize - 1 lift a limited client by at least one level a send |
| RateRuns.PatientSendersAreCleared | wire/rate_limit.go:537-553 | With such gaps a limited client is clear within clearLevel sends, unless one of them disconnects it |
| SessionRates.Session.EvaluateRateLimit | state/session.go:405-425 | A send is measured and recorded in its class only, closes the session on a disconnect, and is not measured for bots |
| SessionRates.Session.ObserveRateChanges | state/session.go:428-461 | Every subscribed class is brought up to date, and exactly the changes against the last observation are reported, in class order |
| SessionRates.Session.SetRateClasses | state/session.go:471-494 | New classes start at their maximum level, unlimited, with the subscriptions of the last observed states; these become the old states, or the new ones the first time |
| SessionRates.Session.SubscribeRateLimits | state/session.go:557-564 | Exactly the named classes become subscribed |
| SessionRates.SubscribedIff | state/session.go:428-564 | Over every run of SetRateClasses, subscriptions, sends and observations after the first SetRateClasses, those with further ones included, which no caller makes: a class is subscribed at the end if and only if some subscription to it has been followed by an even number of SetRateClasses, or by an observation an even number of them later |
| SessionRates.SubscribedAfterOnlySet | foodgroup/auth.go:128-132 | As the server calls it, once when a session is made: whatever came before, over every run after it a class is subscribed exactly if some later subscription names it |
| SessionRates.SubscriptionLost | state/session.go:471-494 | What a second call on one session would do, which no caller makes: in a new session with the default classes a subscription is lost with the second SetRateClasses and back after a third, without any observation |
| SessionRates.FirstSetForgets | state/session.go:471-494 | The first SetRateClasses of a session drops every subscription made before it |
| SessionRates.ReportedOnce | state/session.go:428-461 | Each change is reported once: observing again at the same instant reports nothing and changes nothing |
| SessionRuns.SendOutcome | state/session.go:405-425 | A send sets its class to the exact average, the status of that level, the limited flag and the time, and touches no other class |
| SessionRuns.ObservationOutcome | state/session.go:428-461 | An observation sets a subscribed class to the status of its exact average; a limited one that reached the clear level is limited no more and keeps the average; the time, and classes not subscribed, are untouched |
| SessionRuns.LimitedIsCleared | state/session.go:436-454 | A subscribed limited class whose average has reached the clear level is clear, unlimited, at that average and in the report |
| SessionRuns.ReportsAre | state/session.go:446-455 | Reported are exactly the subscribed classes whose status, or parameters, differ from those last seen |
| SessionRuns.ResetOutcome | state/session.go:471-494 | New classes are at their maximum, clear, unlimited, their clocks started |
| SessionRuns.SubscribeOutcome | state/session.go:557-564 | A subscription changes nothing but the flags of the classes it names |
| SessionRuns.ClassFollowsItsEvents | state/session.go:405-461 | Over every run of a session each class goes through exactly the states of its own sends and of the observations made while it is subscribed |
| SessionRuns.SessionObserversNeverHurt | state/session.go:405-461 | Over every run of a session, observed and not: in each class, within the overflow bound and up to a disconnect of the unobserved run, each send finds at least the same level and is refused only if it was refused there |
| Registry.RunKeepsInv | state/session_manager.go:58-283 | In every interleaving of any number of threads the lock table, the holders, the store and what each thread knows stay consistent |
| Registry.MutualExclusion | state/session_manager.go:58-88 | At most one thread per screen name is between lockUser and unlockUser, although lock objects are deleted and recreated |
| Registry.RefCountsAreExact | state/session_manager.go:58-88 | A lock's reference count is the number of its holder, its waiters and the thread inside unlockUser, and it is in the table exactly while that is positive |
| Registry.UnlockFindsOwnLock | state/session_manager.go:73-88 | unlockUser finds the very lock object its caller acquired and still holds |
| Registry.ClosedAtMostOnce | state/session_manager.go:276-283 | No removed channel is ever closed twice |
| Registry.NoLostWakeup | state/session_manager.go:226-236 | A thread waiting on a slot finds its channel closed or the slot still stored, and removing that slot wakes it |
| Registry.SingleNeverOverwrites | state/session_manager.go:205-264 | A single-session AddSession never overwrites a stored slot |
| Registry.RemoveTakesOnlyItsOwn | state/session_manager.go:276-283 | A removal takes out its own slot and no other; for a replaced session it changes nothing |
| Registry.InstancesAreCapped | state/session_manager.go:213-227 | A session has at most five instances, one if it was not made for several, although closes interleave with adds |
| Registry.JoinsBelowFive | state/session_manager.go:213-227 | In the middle of any run a thread that counts a shared session's instances adds one with its next step if and only if there are fewer than five, and otherwise leaves |
| Registry.AddSessionOutcome | state/session_manager.go:205-264 | From every reachable state in which nobody is in the way: one more instance for one more device below five, none from five on; a fresh slot with one instance with nothing stored, or in place of a session that cannot be shared, which a single session has seen removed; then the lock is free again |
| Registry.JoinedIsStoredIff | state/session_manager.go:205-227 | The session a multi-session AddSession joins is stored exactly unless it was removed after it was found; a removal just before the join is always possible, and then the removed session gets the instance |
| Registry.NoDeadlock | state/session_manager.go:205-241 | The threads inside AddSession are all unable to go on without giving up if and only if each awaits the removal of a stored session, itself or behind the holder of its lock |
| SessionManager.InMemorySessionManager.RegisterUser | state/session_manager.go:58-71 | lockUser finds or makes the user's lock and counts the caller in |
| SessionManager.InMemorySessionManager.UnlockUser | state/session_manager.go:73-88 | Releases the lock found under the name, counts the caller out and deletes the entry with the last one |
| SessionManager.InMemorySessionManager.FindRec | state/session_manager.go:266-273 | The search through all slots finds exactly the slot stored under the name |
| SessionManager.InMemorySessionManager.NewSession | state/session_manager.go:243-264 | A fresh slot with one instance is stored under the name |
| SessionManager.InMemorySessionManager.RemoveSession | state/session_manager.go:276-283 | Deletes the slot and closes its channel only if it is the one stored |
| Instances.NumberAvailableIff | state/session.go:187-197 | A number between 1 and 255 is found exactly if the session has fewer than 255 instances |
| Instances.AddKeepsConsistent | state/session.go:120-140 | Adding under the free number keeps map and order the same instances with distinct numbers |
| Instances.DetachKeepsConsistentIff | state/session.go:173-183 | Removing an instance keeps them the same if and only if it is still listed or its number was not given to another |
| Instances.AlwaysConsistent | state/session.go:1291-1309 | However closes interleave with adds, the closed flag keeps map and order the same instances with distinct nonzero numbers, and every instance handed out is in both or closed |
| Instances.SessionCloseIsCalled | state/session.go:1173-1197 | However closes and joins interleave: when all instances a session had are closed and no close is under way, the session's callback has run at least once since the last of them was removed |
| Instances.SessionCloseIsCalledTwice | state/session.go:1173-1197 | With two open instances, closes that both remove before either counts run the session's callback twice |
| Instances.UnguardedRemovalExample | state/session.go:173-183 | Without the flag a second removal would unlist the successor with the same number |
| Instances.Session.GenerateInstanceNum | state/session.go:187-197 | The smallest free number; none (a panic) when all 255 are taken |
| Instances.Session.AddInstance | state/session.go:120-140 | The new instance gets the smallest free number and is listed last |
| Instances.Session.RemoveInstance | state/session.go:173-183 | Whatever holds the number leaves the map, the instance itself leaves the order |
| Instances.Session.CloseInstance | state/session.go:1173-1197 | A second close does nothing; otherwise the instance is unlisted and the last one runs the session's callback |
| FeedbagItems.IdsPutIds | wire/tlv.go:287-300 | The order attribute reads back the IDs that were written |
| Layouts.OrderLayout | wire/tlv.go:287-300 | Each ID of an order is two bytes, the most significant first |
| Layouts.OrderRead | wire/tlv.go:287-300 | And is read so; a single byte at the end is ignored |
| FeedbagItems.AppendedMembers | wire/snacs.go:2803-2809 | Appending adds the ID at the end of the order, whether or not there was one |
| FeedbagItems.RemovedMembers | wire/snacs.go:2813-2829 | Removing filters the ID out of the order |
| ScreenNames.IdentOfByte | state/user.go:46-50 | A space goes, a capital letter becomes small, any other byte stays |
| ScreenNames.IdentSplit | state/user.go:46-50 | And so for each byte of a name |
| FeedbagBatch.GenIDFailsIff | state/feedbag_list.go:302-320 | The 16-bit search ends, and comes back with 0 exactly if every ID but the one before its start is taken |
| FeedbagBatch.GenIDFinds | state/feedbag_list.go:302-320 | With at most 32766 items it never returns 0, by counting |
| FeedbagBatch.GenIDIsNext | state/feedbag_list.go:302-320 | The ID is the drawn number if that is free, and otherwise the next free one, going up and around |
| FeedbagRuns.GenIDFresh | state/feedbag_list.go:302-320 | An ID that is found is no item's item ID or group ID |
| FeedbagRuns.SmallRunsReplay | state/feedbag_list.go:279-320 | With stored items plus twice the operations at most 32767, permit, deny and mode items in group 0 and only a group under the key (0, 0): no operation of the run gives out a key twice or changes one, and keys stay distinct |
| FeedbagReplay.UpsertsThenDeletes | state/user_store.go:1012-1077 | Upserting the pending updates and then deleting the pending deletes leaves exactly the current list if and only if no listed item has the key of a deleted one |
| FeedbagReplay.DeletesThenUpserts | server/toc/cmd_client.go:1513-1529 | In the other order, if and only if every updated item's key is the key of a listed item |
| FeedbagReplay.FeedbagTable.FeedbagUpsert | state/user_store.go:1025-1077 | One row a key: the last item with the key replaces it, its screen name normalized |
| FeedbagReplay.FeedbagTable.FeedbagDelete | state/user_store.go:1012-1023 | The rows with the keys of the items go |
| FeedbagRuns.UpsertKeeps | state/feedbag_list.go:279-298 | An upsert that changes no key and gives out a free one overwrites the first match in place or appends the item, and keeps everything replaying needs |
| FeedbagRuns.DeleteKeeps | state/feedbag_list.go:261-270 | The first matching item moves to the pending deletes, and everything replaying needs is kept |
| FeedbagOutcomes.EntryPut | state/feedbag_list.go:38-47 | The mode item, a permit or a deny entry with its class number and normalized name in group 0: the first entry for the same is overwritten under its ID, or it is added last under an unused one |
| FeedbagOutcomes.EntryTaken | state/feedbag_list.go:175-188 | The first permit or deny entry for the name goes to the pending deletes; without one nothing changes |
| FeedbagOutcomes.BuddyPut | state/feedbag_list.go:115-137 | A buddy with its alias and note is put into the first group of the name; a new one is the last its group orders |
| FeedbagOutcomes.GroupPut | state/feedbag_list.go:51-81 | A new group comes last, after a new root if there was none, and is the last the root orders; a known name changes nothing |
| FeedbagOutcomes.OperationsAre | state/feedbag_list.go:51-156 | The group and buddy operations of a run are the functions the lemmas on orders and cells speak of |
| FeedbagRuns.SavingReplays | state/feedbag_list.go:35-215 | For every stored list with distinct keys and every sequence of operations none of which gives out a listed key or changes one: saving updates and then deletes turns the stored rows into exactly the current list, if and only if no deleted key was given out again; keys stay distinct |
| FeedbagRuns.SavingDeletesFirst | state/feedbag_list.go:194-215 | The same for saving deletes first: if and only if every update is still listed under its key |
| FeedbagSaves.OneOperationSavedIff | state/feedbag_list.go:35-215 | For every stored list with distinct keys, one operation is saved exactly and keeps the keys distinct if and only if the item it overwrites is in the group it is written to, and each key it gives out, (0, 0) for a missing root among them, is free |
| FeedbagSaves.RootOverwrites | state/feedbag_list.go:56-67 | In a list without a root that holds another item under the key (0, 0), a new group brings a second item with that key, whose row replaces the stored one |
| FeedbagSaves.PermitLostExample | state/feedbag_list.go:51-81 | One permit entry stored under (0, 0) is lost when a group is added |
| FeedbagSaves.StrayDenyExample | state/feedbag_list.go:279-298 | A deny entry stored in group 5 is denied again: the list has it in group 0, the table in both |
| FeedbagSaves.RemovalsAreSaved | server/toc/cmd_client.go:1674-1702 | For every stored list with distinct keys any run of buddy, permit and deny removals is saved exactly, deletes first |
| FeedbagSaves.GroupDeletionIsSaved | server/toc/cmd_client.go:1510-1529 | Deleting a group is saved exactly, whatever else the list holds under distinct keys |
| FeedbagSaves.DelGroup | server/toc/cmd_client.go:1510-1529 | The command leaves in the table exactly the list it computed |
| FeedbagSaves.AdditionsAreSaved | server/toc/cmd_client.go:1429-1438 | Any run of additions none of which gives out a listed key or changes one is saved exactly by its updates alone |
| FeedbagSaves.ReusedKeyExample | state/feedbag_list.go:279-298 | A concrete batch that gives a deleted key out again and loses the new entry when saved |
| FeedbagSaves.DeletesFirstExample | state/feedbag_list.go:194-215 | A deny entry made and deleted again in one batch is stored when deletes are saved first |
| FeedbagOrder.OrdersStayExact | state/feedbag_list.go:51-156 | Over every run with nonempty group names none of whose operations gives out a listed key or changes one: the root orders exactly the listed groups, every group exactly its listed buddies (as sets), and no two items match |
| FeedbagOrder.OrdersNameOnce | state/feedbag_list.go:51-156 | Over the same runs no order comes to name anything twice |
| FeedbagOrder.DeleteGroupOrdered | state/feedbag_list.go:85-111 | Deleting a group leaves exactly the items of other groups, as they were but for the group's ID in the root's order, and exact orders |
| FeedbagOrder.AddGroupOrdered | state/feedbag_list.go:51-81 | A new group is listed and appended to the root's order, under a new root if there was none; a known one changes nothing; all other items stay and the orders are exact |
| FeedbagOrder.AddBuddyOrdered | state/feedbag_list.go:115-137 | A new buddy is listed and appended to its group's order, a known one is overwritten under its ID; all other items stay and the orders are exact |
| FeedbagOrder.DeleteBuddyOrdered | state/feedbag_list.go:141-156 | Exactly the first matching buddy goes, from the list and from its group's order; all other items stay and the orders are exact |
| FeedbagList.List.constructor | state/feedbag_list.go:24-33 | A list of the given items with nothing pending |
| FeedbagList.List.GenID | state/feedbag_list.go:302-320 | The nested search loops find the ID of the specification |
| FeedbagList.List.UpsertItem | state/feedbag_list.go:279-298 | Changes the list as specified, and says where the item is and whether it is new |
| FeedbagList.List.DeleteItem | state/feedbag_list.go:261-270 | Moves the first match to the pending deletes, and says which it was |
| FeedbagList.List.AddGroup | state/feedbag_list.go:51-81 | Changes the list as specified and returns the group |
| FeedbagList.List.DeleteGroup | state/feedbag_list.go:85-111 | Deletes by content every item of the group and takes it out of the roots' order |
| FeedbagList.List.AddBuddy | state/feedbag_list.go:115-137 | Changes the list as specified; an unknown group is an error |
| FeedbagList.List.DeleteBuddy | state/feedbag_list.go:141-156 | Changes the list as specified; an unknown group is an error |
| FeedbagList.List.PendingUpdates | state/feedbag_list.go:194-204 | Copies of the tracked items as they are now, which are then no longer pending |
| FeedbagList.List.PendingDeletes | state/feedbag_list.go:208-215 | Copies of the deleted items, which are then no longer pending |
| Manifest.DecodedWire | wire/benco_keydir.go:137-188 | Every manifest within the bounds of its fields decodes from its own bytes, whatever follows them |
| Manifest.WireDecoded | wire/benco_keydir.go:137-188 | A decoded manifest is within bounds and re-encodes to the very bytes it was read from |
| Layouts.ManifestLayout | wire/benco_keydir.go:137-188 | A manifest byte by byte: version, name, counter, time, identity key, and the devices with their number, each its two keys and its name |
| KeyDirectory.TrimmedArchive | state/key_directory.go:331-346 | The DELETE with its two subqueries leaves of the account's rows exactly the oldest and the newest 19, and every other account's rows alone |
| KeyDirectory.Store.KeyManifest | state/key_directory.go:93-115 | The stored manifest, or none |
| KeyDirectory.Store.PublishManifest | state/key_directory.go:167-226 | Compare-and-swap: the counter must be in range and, under an unchanged identity, grow; another identity is refused |
| KeyDirectory.Store.SetIdentityBackup | state/key_directory.go:273-309 | Archives the live backup, trims the archive and replaces the backup |
| KeyDirectory.Store.TrimIdentityBackupHistory | state/key_directory.go:331-346 | Keeps exactly the rows that neither subquery gives up |
| KeyDirectory.Store.ClearKeyDirectory | state/key_directory.go:390-427 | Archives the live backup, removes manifest and backup, and says whether there was either |
| KeyDirectory.Store.IdentityBackupHistory | state/key_directory.go:438-463 | The account's archive, most recently replaced first |
| KeyDirRuns.ArchiveIsTrimmedLog | state/key_directory.go:273-353 | Over every run of backups, clears and publications of all accounts: the live backup is the last put, and the archive is the oldest entry and the newest 19 of everything ever superseded |
| KeyDirRuns.FirstBackupSurvives | state/key_directory.go:314-353 | The first backup an account ever stored is live or the oldest archived row, and the archive has at most 20 rows |
| KeyDirRuns.PinnedAndForward | state/key_directory.go:130-226 | Between two clears the identity never changes and the counter grows with every change |
| KeyDirRuns.ReplayIsRefused | state/key_directory.go:134-150 | A manifest once accepted is refused as stale ever after, until a clear |
| KeyDirService.Service.ValidateDeviceKey | foodgroup/benco_keydir.go:416-430 | A key is absent, or of the wanted algorithm and 32 bytes |
| KeyDirService.Service.VerifyManifestSignature | foodgroup/benco_keydir.go:384-401 | An Ed25519 identity of 32 bytes, a signature of 64, that verifies over the manifest bytes |
| KeyDirService.Service.ValidatePublish | foodgroup/benco_keydir.go:306-361 | Accepts exactly the requests whose bytes decode to a manifest of the session's account with valid keys, signed by the identity inside, and returns that manifest |
| KeyDirService.Service.PublishManifest | foodgroup/benco_keydir.go:82-169 | Only such a manifest reaches the store, its bytes verbatim; the reply says stored, rejected or pinned, with the counter held |
| KeyDirService.Service.QueryManifest | foodgroup/benco_keydir.go:180-211 | Returns the bytes and signature exactly as they were published |
| KeyDirService.Service.PutBackup | foodgroup/benco_keydir.go:219-256 | Stores a backup of known KDF with salt and blob present and no field over 4096 bytes, and refuses any other |
| KeyDirService.StoredAreGenuine | foodgroup/benco_keydir.go:82-115 | Whatever clients send: every stored row's identity and counter are those of its verbatim blob, which names its own account and carries a verified signature |
| KeyDirService.OnlyNewerManifests | state/key_directory.go:134-150 | Without a clear, the stored manifest is the same or a newer one of the same identity, whatever is requested |
| KeyDirOutcomes.StoredIsVerified | foodgroup/benco_keydir.go:306-401 | Whatever clients send to an empty directory: a stored row holds the bytes of a well-made manifest of its own account, says what they say, and its 64-byte signature over them verifies under the 32-byte identity key |
| KeyDirOutcomes.PublishOutcome | foodgroup/benco_keydir.go:82-169 | After any requests a publish stores its row if and only if the bytes are the account's own well-made manifest, signed by the identity inside, and it is the first, or of the stored identity with a greater counter; otherwise nothing changes |
| KeyDirOutcomes.ForgedIsRefused | foodgroup/benco_keydir.go:384-401 | A manifest whose signature does not verify leaves the directory as it was |
| KeyDirOutcomes.PublishAnswer | state/key_directory.go:167-226 | Stored, stale, pinned or out of range, with the counter that is stored |
| KeyDirOutcomes.ArchiveOutcome | state/key_directory.go:331-346 | Over every run the archive is all of at most 20 superseded backups, or the first and the newest 19 |
| KeyDirOutcomes.BackupOutcome | foodgroup/benco_keydir.go:219-256 | A backup within the bounds becomes the live one, stamped with the time; any other changes nothing |
| KeyDirOutcomes.ClearOutcome | state/key_directory.go:390-427 | A clear removes the account's manifest and live backup, nobody else's, and says whether there was either |
| DeviceAuth.AttestContextInjective | foodgroup/benco_deviceauth.go:172-192 | Account and nonce can be read off the signed bytes: two sessions never sign the same |
| DeviceAuth.SignKeysAre | foodgroup/benco_deviceauth.go:107-112 | The enrolled keys are exactly the devices' signing keys of 32 bytes |
| DeviceAuth.DeviceAuthService.EnrolledSigningKeys | foodgroup/benco_deviceauth.go:88-121 | No manifest or no devices, an unreadable manifest, and devices without usable keys are told apart |
| DeviceAuth.DeviceAuthService.Verify | foodgroup/benco_deviceauth.go:127-162 | Proven exactly by a 64-byte signature, valid over account and nonce, under an enrolled key; nothing to prove without devices |
| DeviceAuth.DeviceAuthService.Challenge | foodgroup/benco_deviceauth.go:230-262 | A session is asked unless attestation is off or the account has no devices |
| DeviceAuth.DeviceAuthService.AttestResponse | foodgroup/benco_deviceauth.go:265-304 | Accepted, and the session attested, exactly for the right version, a challenge issued and a response that is not refused |
| DeviceAuth.DeviceAuthService.Gate | server/oscar/handler.go:1109-1187 | Arms the challenge at the first request; with enforcement an unattested session gets only publishing and answering through |
| DeviceAuth.AttestedByWitness | foodgroup/benco_deviceauth.go:265-304 | Over every run around a session: it becomes attested only at an event at which the account has no devices, or by a signature over its own account and nonce under a key of the manifest stored at that moment |
| DeviceAuth.RoutedOnlyProven | server/oscar/handler.go:1137-1187 | With enforcement every other request is routed only if the session became attested at such an event before, or becomes so now because the account has no devices |
| DeviceAuth.NothingToProveIff | foodgroup/benco_deviceauth.go:88-121 | In a directory the service filled, an account has nothing to prove exactly if it has no manifest or one without devices, and no manifest fails to decode |
| DeviceAuth.RemovedDeviceIsRefused | foodgroup/benco_deviceauth.go:139-154 | A key the manifest does not name proves nothing, whatever is signed with it |
| DeviceAuth.RemovedStaysOut | foodgroup/benco_deviceauth.go:127-162 | A device a stored manifest leaves out stays out, whatever is published or replayed, until a manifest of the same identity with a higher counter replaces it |
| DeviceAuthOutcomes.AnswerOutcome | foodgroup/benco_deviceauth.go:265-304 | An answer attests the session if and only if it is of version 2, to a challenge of 32 bytes, and the account has nothing to prove with or a device of its stored manifest signed this account and this nonce |
| DeviceAuthOutcomes.VerdictIs | foodgroup/benco_deviceauth.go:127-162 | Proven, nothing to prove or refused, by the stored manifest, the key, the 64-byte signature and the signed bytes |
| DeviceAuthOutcomes.ContextLayout | foodgroup/benco_deviceauth.go:172-192 | The signed bytes, byte by byte |
| DeviceAuthOutcomes.GateOutcome | server/oscar/handler.go:1109-1187 | A request is routed if and only if attestation is off or only logged, the connection is no BOS connection, the request is exempt, or the session is or now becomes attested; and who gets a challenge |
| DeviceAuthOutcomes.OnlineOutcome | foodgroup/benco_deviceauth.go:230-262 | At the end of sign-on an unanswered challenge is replaced, or the session attested if its account has nothing to prove with |
| DeviceAuthOutcomes.HonestDeviceGetsIn | server/oscar/handler.go:1109-1187 | A device that signs its challenge is let in from then on, whatever the mode |
| Relationship.ListsAre | state/relationship.go:34-86 | Each of the two outer joins of feedbag and client-side entries has one row for every admitted user with an entry, with the flags of either source |
| Relationship.QueryIsPointwise | state/relationship.go:22-133 | For every database, user and filter: a row is in the result exactly when it is that of an admitted user as defined pointwise |
| RelationshipOutcomes.QueryOutcome | state/relationship.go:22-133 | The same said of the rows of the three tables alone, class numbers, pending marks and privacy modes included |
| Relationship.FilterIsPushedDown | state/relationship.go:34-86 | For every filter, where an empty one is none: filtering inside every subquery, through both outer joins, equals restricting the unfiltered result |
| Relationship.OneRow | state/relationship.go:88-110 | With one privacy-mode row a user, no user appears twice |
| Relationship.RelationshipMirrors | state/relationship.go:174-189 | Relationship(a, b) is Relationship(b, a) with the two block flags and the two list flags swapped, given at most one privacy-mode row for each |
| ConsentService.Service.RequiresAuthorization | state/user_store.go:549-569 | A registered owner that requires authorization and has not granted it to the requester |
| ConsentService.Service.RecordPreAuth | state/user_store.go:574-587 | Records the grant, unless either user is not registered |
| ConsentService.Service.RevokePreAuth | state/user_store.go:592-604 | Removes the grant |
| ConsentService.Service.BuddyStillListed | foodgroup/feedbag.go:608-619 | Whether any buddy row of the owner names the buddy |
| ConsentService.Service.UpsertItem | foodgroup/feedbag.go:203-328 | Items that need authorization are held back, kept pending or stored, one by one, and each is answered by name |
| ConsentService.Service.DeleteItem | foodgroup/feedbag.go:503-589 | All items leave the list first; then each buddy that is gone from it loses its grants both ways, and is told if it was connected |
| ConsentService.Service.ClearPendingAuth | foodgroup/feedbag.go:940-965 | The first row of the granter, if pending, is stored without the mark |
| ConsentService.Service.AuthorizeContact | foodgroup/feedbag.go:836-938 | Records the grant and notifies by session, pending row or message, the latter from a session without a UIN |
| ConsentService.Service.PreAuthorizeBuddy | foodgroup/feedbag.go:790-810 | Authorizes another user; oneself is refused |
| ConsentService.Service.RespondAuthorizeToHost | foodgroup/feedbag.go:1042-1072 | An accept authorizes, both ways between AIM users; a rejection grants nothing |
| ConsentService.Service.ChannelMsgToHost | foodgroup/icbm.go:101-175 | The block and consent gate, the offline store, and the channel-4 route to a grant |
| ConsentRuns.DeletionGrants | foodgroup/feedbag.go:538-587 | Deleting items takes away exactly the grants, both ways, with every AIM buddy a deleted item names and the list no longer does; a group move keeps them |
| ConsentRuns.RemovalSilences | foodgroup/feedbag.go:547-587 | Over every run of upserts, deletions, pre-authorizations, responses and sends: after a real removal by either side no message between the two is delivered or stored, either way, until one of them pre-authorizes or accepts the other, for which no request is needed |
| ConsentRuns.StepStaysSevered | foodgroup/icbm.go:117-133 | No other event, by anyone, opens a severed pair; the channel-4 route cannot, because the gate is before it |
| ConsentRuns.AcceptConnects | foodgroup/feedbag.go:1050-1067 | An accept between AIM users that require authorization grants both ways, whether or not a request came before it, and so even by a party that was just removed |
| ConsentRuns.ConnectedUntilRemoved | foodgroup/feedbag.go:547-563 | A connection stays open both ways over every run without a real removal |
| ConsentRuns.PassedWithConsent | foodgroup/icbm.go:117-133 | Whatever message one of these handlers delivers or stores between AIM users, at that moment its recipient lets the sender through, as things stood or because the request itself has just granted it |
| ConsentRuns.GrantedIff | foodgroup/feedbag.go:790-1067 | Every event but a deletion adds exactly the grants it gives: a pre-authorization or accept by the owner, between AIM users an accept by either, a channel-4 accept that passes the gate, and an ICQ user's upsert of an AIM buddy |
| ConsentRuns.GrantsComeFrom | foodgroup/feedbag.go:790-1067 | Over every run of these handlers a grant that was not there at the start was given by one of these events |
| ConsentRuns.NoticesArePaidFor | foodgroup/feedbag.go:565-586 | Between two registered users that require authorization, removal notices never outnumber the grant events between them, plus one if a grant was left at the start |
| ConsentRuns.NoticesBoundedIff | foodgroup/feedbag.go:565-586 | For two AIM users that bound holds over all states and runs if and only if both are registered and require authorization |
| ConsentRuns.DeletionNotices | foodgroup/feedbag.go:565-586 | A deletion sends a buddy a notice if and only if one of its items severs the two and the buddy let the user through before it |
| ConsentRuns.NoticesRepeat | foodgroup/feedbag.go:565-586 | To a buddy that is not registered or needs no authorization, each of two deletions of one item sends a notice |
| ConsentRuns.AdmissionFollowsConsent | foodgroup/feedbag.go:272-301 | Between AIM users an item is held back, and the request sent, exactly if consent is missing and it is not marked pending; what is stored is marked exactly if consent is missing and otherwise as sent |
| ConsentRuns.AddedWithConsent | foodgroup/feedbag.go:216-306 | An AIM user's list gets no buddy without the buddy's consent, except marked pending, and holds back only those whose consent is missing |
| ConsentOutcomes.MessagePassesIff | foodgroup/icbm.go:101-225 | A message of any kind passes if and only if nobody blocks, one of the two is an ICQ user or the recipient is no account, asks for no authorization or has authorized the sender, and it can be delivered or, to someone offline, stored |
| ConsentOutcomes.PlainMessage | foodgroup/icbm.go:101-225 | A plain message passes alone or nothing does, and nobody's grants or lists change |
| ConsentOutcomes.ConnectedUsersTalk | foodgroup/feedbag.go:1050-1067 | After an accept, over every run without a real removal, messages between the two that are not blocked are delivered both ways |
| ConsentOutcomes.AcceptPassesIff | foodgroup/feedbag.go:836-915 | An accept is told as a message if and only if the requester is offline, or keeps no feedbag and has no pending row of the granter, and the message is let through |
| ConsentOutcomes.RejectPassesIff | foodgroup/feedbag.go:1074-1121 | A rejection likewise, and it changes nothing |
| ConsentOutcomes.AcceptClearsPending | foodgroup/feedbag.go:940-965 | The requester's pending row loses its mark, and no other row changes |
| ConsentOutcomes.PreAuthorizeLikeAccept | foodgroup/feedbag.go:790-888 | A pre-authorization tells and unmarks as an accept does and grants one way; oneself is refused |
| ConsentOutcomes.OneItemAdmitted | foodgroup/feedbag.go:216-306 | Every case of one item of an upsert: stored as sent, marked or unmarked, or held back; what is granted and asked for |
| ConsentOutcomes.OneItemUpserted | foodgroup/feedbag.go:203-328 | What an upsert of one item stores and answers |
| ConsentOutcomes.UpsertsOneByOne | foodgroup/feedbag.go:216-328 | Upserting many items leaves and sends what upserting them one after the other does |
| ConsentOutcomes.UpsertAnswers | foodgroup/feedbag.go:203-328 | Each item is answered authorization required exactly if one of its name was held back when its turn came; denying oneself is the one error |
| ConsentOutcomes.DeletionOutcome | foodgroup/feedbag.go:503-589 | In terms of the rows alone: the rows with other keys stay, and so do all grants but those between the user and an AIM buddy no row of whose is left; a group move keeps both |
| Mailbox.RemovalSilencesMail | foodgroup/feedbag.go:547-587 | With the store of offline messages, their retrieval and the web API added: after a real removal, until a grant between the two, a message is sent between them if and only if one of the web API gets through, and if none does, only messages stored before the removal are handed out |
| Mailbox.SeveredTalkOnlyByWeb | server/webapi/handlers/messaging.go:90-215 | Two AIM users whose accounts require authorization and who have no grants between them stay without over every such run, and nothing but the web API delivers or stores a message between them |
| Mailbox.SeveredReadOnlyOld | foodgroup/icbm.go:572-610 | If it does not, what is retrieved between them was stored at the start |
| Mailbox.WebAsksNoConsent | server/webapi/handlers/messaging.go:90-215 | Between two such users the same message is refused to an OSCAR client and delivered for a web client |
| Mailbox.SentWithConsent | foodgroup/icbm.go:117-160 | Every message delivered or stored, but one of the web API, passes with the recipient's consent at that moment |
| Mailbox.StoredWithConsent | state/user_store.go:2155-2231 | Over every run a message in the store was there at the start, was put there by the web API, or passed with consent when it was stored |
| Mailbox.MailConserved | state/user_store.go:2155-2284 | Over every run each stored message is still stored or has left the store exactly once, retrieved or discarded, and nothing else has |
| Mailbox.RetrievalOutcome | foodgroup/icbm.go:572-610 | Retrieval hands out every message stored for the user, as often as it is stored, and leaves exactly the others |
| Mailbox.StoredIsRetrieved | foodgroup/icbm.go:572-610 | What is stored stays, over every run in which the recipient neither retrieves nor discards, and the next retrieval hands it out |
| Mailbox.HandledIsStored | state/user_store.go:2155-2231 | What a handler stores is in the store |
| Mailbox.WebPassesIff | server/webapi/handlers/messaging.go:90-215 | A message of the web API is delivered unless blocked, or stored for someone offline below ten messages |
| Mailbox.OfflineMessageStoredIff | foodgroup/icbm.go:134-157 | A plain message to someone offline is stored exactly if it is let through, the recipient takes it and fewer than ten of the sender's are stored |
| Mailbox.CollectOutcome | foodgroup/icq.go:388-470 | A stored message is handed out and stays stored; an ICQ user's stored accept is a grant for a client that keeps a feedbag, and no other message grants anything |
| Mailbox.InboxBounded | state/user_store.go:2172-2190 | Over every run nobody has more than ten stored messages from one sender |
| Mailbox.MoveGrantedIff | foodgroup/icq.go:415-433 | Every move but a deletion adds exactly the grants it gives; of those outside the consent handlers only the retrieval of an ICQ user's stored accept gives one |
| Mailbox.MailGrantsComeFrom | foodgroup/icq.go:415-433 | Over every run with mail a new grant was given by a consent handler or by such a retrieval, and one by an AIM user always by a handler |
| MailboxService.Mail.HasRoom | state/user_store.go:2172-2190 | Counts the stored messages of one sender to one recipient against the limit of ten |
| MailboxService.Mail.SaveMessage | state/user_store.go:2155-2231 | Appends the message, or refuses it if the limit is reached |
| MailboxService.Mail.RetrieveMessages | state/user_store.go:2233-2276 | The messages of one recipient, in order |
| MailboxService.Mail.DeleteMessages | state/user_store.go:2278-2284 | Exactly the messages of one recipient go |
| MailboxService.Mail.SendIM | server/webapi/handlers/messaging.go:90-215 | Delivers or stores unless blocked or without room, and asks no consent |
| MailboxService.Mail.OfflineRetrieve | foodgroup/icbm.go:572-620 | Hands out a recipient's messages and deletes them |
| MailboxService.Mail.CollectOne | foodgroup/icq.go:388-470 | One stored message: an ICQ user's answer to a request is acted upon for a feedbag session, any other is handed out; it stays stored |
| MailboxService.Mail.DeleteMsgReq | foodgroup/icq.go:60-65 | Deletes what was stored for the user |

## Left out

- Single-client decode quirks (wire/decode.go:179-252), and the byte-order switch for `ICQMessageReplyEnvelope` when marshalling (wire/encode.go:150-153), which the decoder does not mirror.
- Types outside the schemas: maps, interfaces, signed integers, pointers without the optional tag. Reflection itself is not modelled.
- How `Tags` connects to `Codec`: a schema is the type with its tags already parsed.
- Screen names lower only ASCII letters; `strings.ToLower` lowers more.
- `RetrieveSession`, `CloseSession` and relaying in state/session_manager.go, and sign-on completion: readers of the same maps.
- A session's screen name is fixed when its slot is made; the source could set it later.
- The chat session manager (state/session_manager.go:356-409), which keeps one registry a room under a lock of its own.
- Instances.Session.CloseInstance: the method runs without interruption; closes that interleave are the steps of `Instances.AlwaysConsistent` and `Instances.SessionCloseIsCalled`.
- Warning levels, `ScaleWarningAndRateLimit` and their timers (state/session.go:504-554, foodgroup/icbm.go:668-790): float32 rounding; thresholds are fixed in the rate-limit theorems.
- RateRuns.ObserversNeverHurt: gaps are bounded by the class's overflow limit, the largest for which it holds (`GapLimitIsSharp`).
- FeedbagRuns.SavingReplays: no operation may give out a listed key or change one; for a single operation that condition is exact (`OneOperationSavedIff`), and `SmallRunsReplay` names lists on which it always holds.
- Length limits of the stored attribute blob of a feedbag row, and its last-modified time.
- `NewBuddies` (server/toc/cmd_client.go:1572-1645), which saves groups before buddies, item by item, and nothing at all if no buddy item is pending.
- How the TOC commands send their saved items through the feedbag service to other sessions.
- Registration and deletion of accounts while the key directory or the consent model runs; database errors and cancelled transactions.
- FeedbagReplay.FeedbagTable.FeedbagUpsert: the privacy-mode and pending columns, which are read off the item, are not separate columns here.
- Relationship.QueryIsPointwise: results are sets of rows, so duplicate rows, which need two privacy-mode rows of one user, are not counted.
- Relationship rows carry the stored name; the source normalizes it once more.
- ConsentService.Service.UpsertItem: BART items, preferences, presence broadcasts and the "you were added" notices are not modelled.
- ConsentService.Service.ChannelMsgToHost: what a relayed message contains, host acknowledgements and conversation tracking are not modelled; the `storable` flag stands for the recipient's registration and preferences; the inbox limit is applied in `Mailbox`.
- ConsentService.Service.ClearPendingAuth: the row that the unordered SELECT lists first is a parameter.
- Atomicity of handlers: a removal and an accept that run at the same time, or a retrieval and a save, are not interleaved.
- What passes between users without being a message of the consent model: authorization requests (foodgroup/feedbag.go:683-785), "you were added" notices of an upsert, typing notifications, chat rooms, and the messages an administrator sends (server/http/mgmt_api.go:724-760).
- Errors that end `OfflineMsgReq` in the middle of its loop, and the order the unordered SELECT returns messages in.
- The sign-on re-challenge and log lines of the attestation gate, apart from their effect on the session; nonces are never short.
- Cookie.CookieBaker.Issue: the payload shares memory with the buffer the token is written to; the temporary buffer of `marshalSlice` makes that harmless, and here they are separate.
- Directory search, web API stores, profiles, name tables, BART, configuration, networking and TLS.
