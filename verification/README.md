# Verified model of libdomain

A Dafny model of the three parts of libdomain that hold real state or a real grammar, with proofs.

- **The request engine** (`Model.dfy`, `Connection.dfy`, `RequestQueue.dfy`, `Entries.dfy`): slots of a
  fixed array, a queue threaded through nodes embedded in those slots, a registry of searches that is
  compacted in place, and a read event that drains the queue while handlers enqueue more.
- **The connection state machine** (`Model.dfy`, `Invariants.dfy`, `Conservation.dfy`,
  `Outcomes.dfy`, `Transitions.dfy`, `Directory.dfy`, `Provenance.dfy`, `Guarantees.dfy`,
  `Reconnection.dfy`, `LostCallback.dfy`): ten states, moved by `csm_next_state` and by read handlers.
- **Recognisers, parser and schema** (`Regex.dfy`, `Dn.dfy`, `DnText.dfy`, `DirectoryString.dfy`,
  `IntegerSyntax.dfy`, the `AttributeType*.dfy` files, `Schema.dfy`).

`dafny verify dfyconfig.toml` checks all of it.

## How it is built

`Model.dfy` describes a connection as a value (`View`) and every operation as a function on it: API
call, handler, drain step, timer step, and `Run` over any list of actions. Lemmas about all runs are
about `Run`. `Connection.dfy` has the connection as the source keeps it: a class with arrays, embedded
nodes, two counters and a linked queue. Each of its methods is proved to take `View()` to what the
function of the same name says, and `Drive` carries this to whole runs. `Valid()` of that class is the
sliding window: at every moment, also inside a drain and after an aborted one, the linked nodes are
exactly those of the slots just below `n_read_requests`, in ascending order. That is why a push whose
result the source ignores cannot fail and why a slot that is overwritten is never a linked one.

The server, libldap and the user's callbacks are inputs: a `Tick` says how the library answers the
calls of one timer step, a `Reply` what `ldap_result` and the handlers' calls return for one popped
request, an `Action` what happens next. Message ids are arbitrary integers; what depends on their
being fresh says so. `History` in a `View` is instrumentation: what has happened since the last
completed reset, what the current libldap handle has been asked and has answered, and the *faults*
after which a guarantee is no longer owed. Two of them are about others than libdomain: `WrongId`, when
libldap gives out an id twice on one handle or answers one that is not outstanding there, and
`WrongKind`, when the server answers an operation with a message that it does not get. A run is *orderly*
when no message id was reused and no search was dropped on an error, lost in an aborted drain or
answered with something other than an entry or a result. `overrun` marks a write past the end of the
8192 slots, which the source does not check; the class methods require that it does not happen and
nothing is claimed after it.

What the functions of `Model.dfy` mean is told a second time without them: `Outcomes.dfy` says what an
API call and a read event lead to by the state before and the answers, `Transitions.dfy` what each call
of `csm_next_state` leads to, `Directory.dfy` and `Provenance.dfy` where the directory type and the
search records of a run come from.

A `Timer` action is one call of `csm_next_state`. The library's own timer makes these calls until the
state is RUN or ERROR, where `connection_update` deletes it (`src/domain.c:449-455`); in those two
states the step is one that an application makes itself. A read event does something only while its
handler is registered: `connection_install_handlers`, called by StartTLS and the binds, registers it
unless `handlers_installed` is set (`src/connection.c:340-365`), and `connection_close` deletes it
(`src/connection.c:704-711`).

A recogniser compiled by Ragel ends with a test for the error state. `Regex.dfy` models such a scanner
by the residual expression still to be matched, and proves that this test holds exactly for the
prefixes of words. The grammars are written rule by rule as in the `.rl` files. The attribute type
parser is written as the machine with its actions, place by place, and its places are proved to be the
residuals of its grammar.

## Where code and documentation differ

The model follows the code.

- The limit of ten reconnections is not global: `connection_configure` zeroes the counter just before
  the ERROR step increments it (`src/connection.c:296`, `src/connection_state_machine.c:190-195`).
- `connection_remove_search_request` compares the index with the number of read requests
  (`src/entry.c:249`); deletion is exact only under an invariant between the two arrays.
- An unreadable option inside the drain returns early (`src/connection.c:626-627`): the requests
  already found pending are lost and the counter is not rewound.
- `search` links the read request before it finds that the registry is full (`src/entry.c:220-231`).
- `request_queue_move` from an empty queue reports a fault (`src/request_queue.c:256-262`).
- A failed `connection_configure` goes unnoticed by the ERROR step, which proceeds to INIT with the old
  queue (`src/connection_state_machine.c:192-195`). If `ldap_initialize` failed, `handlers_installed`
  is still set and no read handler comes back (`src/connection.c:179-192`); if something later failed,
  the handlers are installed again with the next TLS or bind request and the old requests are still
  in the queue, but libldap is asked for their ids on the new handle. One of them is answered only if
  the new handle gives out its id again, and its handler then takes the answer to another operation.
  Two binds can then be in flight: the kept one and the new one, or two new ones when a kept TLS request
  is answered so. A bind before the handshake takes, besides, a server that does not keep to the
  protocol.
- The append functions return false for a key seen before, although they insert
  (`src/schema.c:276-283`); the schema callbacks then stop reading the entry.
- The recognisers accept every prefix of a word, so for instance an unfinished name is a valid
  distinguished name.

## Model

| member | source | states |
|---|---|---|
| `RequestQueue.Queue.constructor` | src/request_queue.c:40-51 | a new queue is well formed and empty, with the given capacity |
| `RequestQueue.Push` | src/request_queue.c:63-110 | on a well-formed queue and an unlinked node: appended at the end, or FULL and nothing changed; on any arguments the error codes: INVALID_PARAMETER and FULL change nothing, FAULT leaves the queue as it was and the node already unlinked |
| `RequestQueue.Pop` | src/request_queue.c:119-148 | takes the oldest node; the tail left stale by popping the last node does not matter afterwards |
| `RequestQueue.Peek` | src/request_queue.c:157-174 | the oldest node, or NULL |
| `RequestQueue.IsEmpty` | src/request_queue.c:183-193 | true exactly for NULL and for the empty sequence |
| `RequestQueue.Move` | src/request_queue.c:206-265 | all or nothing: target then source in the target and the source empty, or an error code and every pointer of both queues unchanged |
| `RequestQueue.RunAll` | src/request_queue.c:63-265 | any interleaving of push, pop and move over any number of queues that share no node gives the results and contents of bounded first-in first-out sequences |
| `Connection.Connection.constructor` | src/connection.c:285-301 | starts in INIT with nothing queued, registered or loaded |
| `Connection.Connection.TakeSlot` | src/connection.c:394-398 | the next slot is never a linked one; the request is linked last and the ignored push result is success |
| `Connection.Connection.Enqueue` | src/connection.c:446-450 | one more request behind those queued, one more slot used, nothing else changed |
| `Connection.Connection.Search` | src/entry.c:193-240 | the request is linked in any case; the record, with the id, the user data and the callback given, or the default one for NULL, is entered last and only if the registry has room |
| `Connection.ShiftDown` | src/entry.c:256-261 | later records move down one place, the others stay |
| `Connection.Connection.RemoveSearchRequest` | src/entry.c:247-264 | the registry becomes what the source's index test makes of it |
| `Entries.Collect` | src/entry.c:299-371 | for a chain of any length every write is in bounds, the array holds the entries in order and then NULL, and its size stays within 256 or twice the count plus one |
| `Connection.Connection.FindSearch` | src/entry.c:288-293 | the first record with the message id |
| `Connection.Connection.OnSearch` | src/entry.c:275-402 | the matching record's callback receives the entries of the answer up to NULL, may make further calls, and the record goes; other answers reach the error callback |
| `Connection.Connection.ParseDirectory` | src/directory.c:113-141 | Active Directory or OpenLDAP by which of their attributes the last telling message names first; if none tells, the old type, or unknown |
| `Connection.Connection.OnTls` | src/connection.c:813-856 | transport ready after installing TLS, ERROR when that fails and the options can be read |
| `Connection.Connection.OnBind` | src/connection.c:738-802 | a continued interactive bind replaces the consumed request by one new one; success means BOUND; a simple bind's message type is never the success code |
| `Connection.Connection.GiveUp` | src/connection.c:625-631 | the request is dropped, or an unreadable option ends the drain |
| `Connection.Connection.DrainQueue` | src/connection.c:616-645 | the loop ends although handlers enqueue, never overflows the pending array, and takes each request exactly as the drain on values does |
| `Connection.Connection.Rewind` | src/connection.c:647-658 | the pending requests occupy the lowest slots, in order, with the counter at their number |
| `Connection.Connection.OnRead` | src/connection.c:600-664 | the whole read event, early return included, does what `OnReadEvent` says |
| `Connection.Connection.Reset` | src/connection.c:285-301 | fresh queue, schema and registry, counters at zero, every slot and record cleared |
| `Connection.Connection.LoadSchema` | src/schema.c:322-343 | which internal searches go out for each directory type and what is returned |
| `Connection.Connection.InstallHandlers` | src/connection.c:340-365 | the read event is registered, once, unless the flag says that it has been |
| `Connection.Connection.StepError` | src/connection_state_machine.c:187-197 | the read event is deleted; below the limit configuring comes next, and then INIT whatever it returned |
| `Connection.Connection.NextState` | src/connection_state_machine.c:87-205 | every state's step, its calls, its return code |
| `Outcomes.CallOutcome` | src/entry.c:193-240 | an API call is queued last; a search is entered last with what it asks for, if there is room |
| `Outcomes.CallsOutcome` | src/entry.c:193-240 | the calls of a callback are queued in their order and change nothing else but the registry |
| `Outcomes.CallsAreEntered` | src/entry.c:226-237 | and each search among them is entered while there is room |
| `Outcomes.UnansweredRead` | src/connection.c:616-645 | a read event without answers moves TLS_NEGOTIATION and BIND_IN_PROGRESS to ERROR exactly when a request fails before any unreadable option, and changes no other state |
| `Outcomes.FailedRead` | src/connection.c:586-593 | in particular with readable options: exactly when one of the requests queued at the start fails |
| `Outcomes.OneAnswered` | src/connection.c:616-660 | wherever in the queue the answered request stands: it goes, the others stay in order, and what its handler queues comes last |
| `Outcomes.AnsweredTls` | src/connection.c:813-856 | TRANSPORT_READY with TLS up, ERROR with TLS not up and a readable option, otherwise the state as it was; nothing else changes |
| `Outcomes.AnsweredBind` | src/connection.c:738-802 | one more bind request when the mechanism goes on, BOUND when it is through, ERROR on a reported error; nothing else changes |
| `Outcomes.AnsweredDirectory` | src/directory.c:103-141 | the directory type that the attribute names in the answer tell; nothing else changes |
| `Outcomes.AnsweredSearch` | src/entry.c:286-377 | the first record with the id has its callback run on the entries of the answer, and only the table, path or requests which that callback is for change |
| `Outcomes.AnsweredForApplication` | src/entry.c:393-396 | answers for the application lead to exactly the calls its callback makes, in order |
| `Outcomes.AnsweredInVain` | src/entry.c:382-384 | references, requests without handler and cleared records lead to nothing |
| `Transitions.TimerSteps` | src/connection_state_machine.c:87-205 | which state may follow which at a call of `csm_next_state` |
| `Transitions.ReadSteps` | src/connection.c:600-664 | a read event leaves the state or leads to TRANSPORT_READY, BOUND or ERROR, whatever the answers |
| `Transitions.EntersRunning` | src/connection_state_machine.c:174-180 | whatever step enters RUN does so from CHECK_SCHEMA, on OpenLDAP with both tables non-empty |
| `Transitions.LeavesCheckSchema` | src/schema.c:353-363 | and CHECK_SCHEMA is left at the first step at which that holds |
| `Transitions.InitStep` | src/connection_state_machine.c:92-104 | StartTLS sent, refused or not asked for |
| `Transitions.BindStep` | src/connection_state_machine.c:109-137 | a bind that went out: its request, the next state and the return code |
| `Transitions.NoBindStep` | src/connection_state_machine.c:109-137 | one that did not: tried again while connecting, otherwise ERROR |
| `Transitions.OtherReturnCodes` | src/connection_state_machine.c:87-205 | every other state's step returns success, whatever has happened |
| `Transitions.DetectStep` | src/connection_state_machine.c:145-158 | the search for the directory type, until the type is known |
| `Transitions.QuietStep` | src/connection_state_machine.c:106-185 | the states that wait, the step after a bind, and RUN, which forgets the attempts |
| `Transitions.TablesStep` | src/openldap_schema.c:265-300 | the two schema searches, attribute types first, each with its own record, and then CHECK_SCHEMA |
| `Transitions.RefusedTablesStep` | src/openldap_schema.c:279-298 | a refused one leads to ERROR and leaves the other queued |
| `Transitions.PathStep` | src/ad_schema.c:270-291 | Active Directory is first asked for the path of its schema |
| `Transitions.NoSchemaStep` | src/schema.c:333-342 | FreeIPA is an error, an unknown directory has no schema to load |
| `Transitions.FullRegistryStep` | src/entry.c:226-231 | a registry without room for both searches leads to ERROR |
| `Transitions.ConfiguredAnew` | src/connection.c:285-301 | a reconnection over a completed configure forgets the directory type, both tables, queue and registry |
| `Transitions.ConfiguredInVain` | src/connection.c:322-327 | one over a failed configure keeps all of these |
| `Transitions.GivenUp` | src/connection_state_machine.c:187-197 | after ten attempts ERROR only closes |
| `Directory.DetectedType` | src/directory.c:75-126 | the last message with a telling attribute decides, by the one it names first |
| `Directory.SomethingIsSaid` | src/directory.c:75-126 | one of the three cases of that is always the case |
| `Provenance.RecordsAreAskedFor` | src/entry.c:233-237 | in every run each record registered and each one whose callback has run carries the id, callback and user data of a search that the application, one of its callbacks or the schema loading made |
| `Connection.Connection.Drive` | src/connection_state_machine.c:87-205 | for any list of timer steps, read events, API calls and breakages the object goes through the states of `Model.Run` |
| `Model.Drained` | src/connection.c:616-645 | the drain ends, and popped plus queued requests never exceed the counter |
| `Model.OnReadEvent` | src/connection.c:600-664 | a read event keeps the window of linked slots, the settings and the counters of attempts |
| `Conservation.DrainConserves` | src/connection.c:616-660 | without an unreadable option: the requests popped are those queued at the start, in order, then those handlers added, one slot each; each is exactly one of pending, dispatched, dropped; the pending ones are the new queue, in order, and the counter is their number |
| `Conservation.AbortLosesPending` | src/connection.c:625-627 | with one: exactly the requests found pending and the failing one are lost, those not popped stay queued |
| `Conservation.AbortIff` | src/connection.c:625-627 | the drain aborts exactly when one of the replies that a drain able to read every option would meet is unreadable |
| `Conservation.DrainIsBounded` | src/connection.c:613-648 | a bound, known beforehand, on the requests one event pops |
| `Invariants.RunGood` | src/connection_state_machine.c:87-205 | every run without an overrun keeps all the invariants: window, one handshake, TLS guard, known directory type, attempts in 0..10, registry agreement |
| `Invariants.DispatchGood` | src/connection.c:639-643 | each handler keeps them, with the requests found pending still live |
| `Invariants.RegistryFits` | src/entry.c:226-237 | records with live requests of their own are no more than the live requests |
| `Invariants.RemovalIsExactIff` | src/entry.c:247-264 | removal deletes exactly the given record if and only if the index is not the last read slot's or every later record is a cleared one, of which there is none behind the last |
| `Invariants.RemovalIsExact` | src/entry.c:247-264 | so in every orderly reachable state removal is exact |
| `Guarantees.StartTlsBeforeBind` | src/connection_state_machine.c:92-136 | with StartTLS demanded no bind call is made, in any run, before a successful handshake since INIT, unless a configure left incomplete an interactive bind request in the queue and, besides, libldap or the server broke the protocol |
| `Guarantees.GuaranteesStand` | src/connection_state_machine.c:187-197 | in terms of what happens: StartTLS precedes every bind in each run without an incomplete configure, and one TLS or bind request at most is live in each run without a failing one |
| `Reconnection.BareBindIff` | src/connection_state_machine.c:187-197 | the exact condition with a library that answers only what its handle was asked and a server that answers with anything, whatever happens until the next reconnection: a bare bind call is possible if and only if an interactive bind request is queued when ERROR is left |
| `Reconnection.BareBindHappens` | src/connection.c:179-327 | such a run from a fresh connection, in which each handle gives out each id once and answers only its own, once |
| `Guarantees.OneBindInFlight` | src/connection.c:748-781 | at most one bind request is live in every reachable state, unless a configure failed before its resets with a TLS or bind request queued |
| `Reconnection.TwoBindsIff` | src/connection_state_machine.c:187-197 | the exact condition with library and server keeping to the protocol, with StartTLS or without and whatever happens until the next reconnection: two binds can be in flight if and only if a TLS or bind request is queued when ERROR is left |
| `Reconnection.TwoBindsHappen` | src/connection.c:179-327 | such a run from a fresh connection |
| `Guarantees.EachSearchFiresOnce` | src/entry.c:220-237 | in orderly runs each search entered has called back once with its own record, or is registered and has a live request, never both |
| `Guarantees.AnsweredSearchFires` | src/entry.c:288-377 | the answer to a search runs its own callback on the entries of the answer, and exactly its record is removed even if the callback searches again |
| `LostCallback.DroppedSearchLosesCallback` | src/entry.c:249-253 | a run that connects, binds and searches three times, in which the search dropped on an error makes a later one lose its callback |
| `Guarantees.DirectoryKnownInLaterStates` | src/connection_state_machine.c:145-180 | REQUEST_SCHEMA, CHECK_SCHEMA and RUN imply a known directory type, in every run |
| `Guarantees.LoadedWhileRunning` | src/schema.c:353-363 | from whatever step enters RUN on OpenLDAP until the next reconnection both tables by OID stay non-empty |
| `Guarantees.ReconnectPotential` | src/connection_state_machine.c:187-197 | attempts stay within 0..10 and count the ERROR-to-INIT steps exactly while not zeroed, so a stretch without a reset has at most ten |
| `Guarantees.ReconnectsUnbounded` | src/connection.c:296 | for every n a run with n reconnections and a counter never above one |
| `Regex.AcceptsIffViable` | src/syntaxes/dn.rl:77-82 | the test for the error state holds exactly for prefixes of words |
| `Regex.NextIff` | src/syntaxes/dn.rl:77-80 | a transition on a byte leads to what may follow it |
| `Regex.Complete` | src/syntaxes/dn.rl:82 | a bound, computed from the expression, on the bytes that complete a prefix |
| `Dn.AcceptedIffThreeBytesShort` | src/syntaxes/dn.rl:31-82 | accepted if and only if at most three more bytes make it a distinguished name of section 3 of RFC 4514 |
| `Dn.ValidateDnIff` | src/ldap_syntaxes.c:306-314 | accepts exactly the non-empty texts that at most three more bytes make a distinguished name; not NULL, not the empty text |
| `DnText.NameIff` | src/syntaxes/dn.rl:31-75 | the grammar describes exactly the names of section 3 of RFC 4514, told by characters, escapes and lists instead of byte ranges |
| `DnText.ValidatedIff` | src/ldap_syntaxes.c:306-314 | so the validator accepts exactly the non-empty texts that at most three more bytes make such a name |
| `Dn.AcceptedAfterComma` | src/syntaxes/dn.rl:64 | a complete name, a comma and anything accepted is accepted |
| `DirectoryString.CharacterIff` | src/syntaxes/directory_string.rl:8-14 | the character rule is exactly the encodings of Unicode scalar values: no surrogates, no overlong forms |
| `DirectoryString.AcceptedIffTextAndTail` | src/syntaxes/directory_string.rl:16-34 | accepted if and only if whole characters followed by a proper beginning of one |
| `DirectoryString.ValidateDirectoryStringIff` | src/ldap_syntaxes.c:236-244 | accepts exactly the non-empty texts of whole characters and then possibly one cut short; not NULL, not the empty text |
| `DirectoryString.SplitIsUnique` | src/syntaxes/directory_string.rl:16-34 | that split is unique and the tail has at most three bytes |
| `IntegerSyntax.IntegerIff` | src/syntaxes/integer.rl:8-15 | the grammar is exactly the canonical decimals |
| `IntegerSyntax.AcceptedIffText` | src/syntaxes/integer.rl:20-32 | accepted: canonical decimals, the empty text and the lone hyphen |
| `IntegerSyntax.TextIsInjective` | src/syntaxes/integer.rl:8-15 | accepted decimals correspond one to one to integers |
| `IntegerSyntax.IntTextFits` | src/ldap_syntaxes.c:83-91 | the length caps never reject a value in range |
| `IntegerSyntax.ValidateInteger` | src/ldap_syntaxes.c:76-117 | accepts exactly the canonical decimals of 32-bit range, and the lone hyphen where the library's conversion does not set errno for it |
| `IntegerSyntax.ValidateLargeInteger` | src/ldap_syntaxes.c:267-298 | the same for 64-bit range |
| `AttributeTypeParser.Parse` | src/parsers/attribute_type_description.rl:84-117 | the scanning loop with its actions computes what the machine on values does, NULL arguments included |
| `AttributeTypeGrammar.EveryStep` | src/parsers/attribute_type_description.rl:52-78 | each transition of the parser leads to the residual, in the grammar, of what has been read |
| `AttributeTypeGrammar.ParsedIffViable` | src/parsers/attribute_type_description.rl:61-78 | a structure is returned exactly for the beginnings of descriptions |
| `AttributeTypeGrammar.ParsedIffAccepted` | src/parsers/attribute_type_description.rl:104-116 | that is what a scanner compiled from the grammar decides |
| `AttributeTypeGrammar.CompleteIffClosed` | src/parsers/attribute_type_description.rl:70-78 | the text is a whole description exactly when its closing parenthesis has just been read |
| `AttributeTypeRoundTrip.ParsePrinted` | src/parsers/attribute_type_description.rl:7-50 | for every attribute type, spacing, keyword case and list form, parsing the printed text gives back exactly its fields |
| `AttributeTypeDescriptions.GrammarIsPrinted` | src/parsers/attribute_type_description.rl:52-78 | the words of the grammar are exactly the printed texts |
| `AttributeTypeDescriptions.DescriptionParses` | src/parsers/attribute_type_description.rl:7-78 | so every complete description is the printing of some type and is parsed to exactly its fields |
| `AttributeTypeTruncation.TruncatedIsInitialPart` | src/parsers/attribute_type_description.rl:104-116 | for any accepted text, cutting it anywhere gives an initial part of its fields |
| `SchemaTable.LookupIsLastAppended` | src/schema.c:197-255 | after any appends, lookup by OID or name equals a backwards linear search |
| `SchemaTable.NamesHaveOids` | src/schema.c:265-284 | a definition found by name was appended with that name and its OID is in the other table |
| `SchemaTable.AppendAllIsInsertAll` | src/openldap_schema.c:48-113 | a schema callback appends some first part of the values, and stops only at one that does not parse or after a key seen before |
| `Schema.Index.Append` | src/schema.c:294-313 | the definition is the last one appended; true exactly if it is complete and the last of its names, or its OID if it has none, has not been appended before; NULL arguments included |
| `Schema.Index.GetByOid` | src/schema.c:231-238 | the last complete definition appended with the OID, as a search backwards through the appends finds it |
| `Schema.Index.GetByName` | src/schema.c:248-255 | the last complete definition appended with the name; the other table then knows its OID |
| `Schema.Index.List` | src/schema.c:124-187 | for each OID, exactly once, the last definition appended with it, then NULL |

## Left out

- libldap, SASL, libverto, talloc and glib: their outcomes are inputs, a hash table is a map, and the allocations of requests, records and tables never fail.
- Who owns which allocation: a configure that fails after `ldap_initialize` frees the state machine it has just made (`src/connection.c:194`, `322-327`); the model takes the connection to go on with it. Closing frees `ldap_defaults` (`src/connection.c:721`), which the bind calls read (`src/connection.c:538-548`, `753-760`) and an incomplete configure need not have made again; the model takes it to be readable. Deleting an event that has been deleted before is taken to do nothing.
- `connection_configure`: it fails at `ldap_initialize`, or before its resets (any of the calls in between), or completes; that the event base cannot be made after the resets is left out.
- Sockets, certificates, the write event and the timers themselves.
- The write requests: the library never uses them after clearing them.
- A recogniser's tables: a state of the compiled scanner is represented by the residual expression, not by a number.
- IntegerSyntax.ValidateInteger: `strtol` is a function with the standard clamping; whether text without digits sets errno is a parameter, and long has 64 bits.
- IntegerSyntax.ValidateLargeInteger: the same for `strtoll`.
- Connection.Connection.OnSearch: `ldap_result` is asked for one message id, and its contract that the reply carries this id is taken over (`src/entry.c:290` reads it from the reply); the attributes of an entry are not modelled.
- Connection.Connection.OnRead: handlers of add, modify, delete, rename and whoami are reduced to the API calls their error callback makes, and a user's callback to the API calls it makes; `LDAP_LOCAL_ERROR` from installing TLS counts as success, as in the source.
- Connection.Connection.LoadSchema: that reading an entry ends when an attribute has no values is not claimed; the source then does not advance (`src/openldap_schema.c:61-64`).
- Schema.Index.List: the order of the listing is the hash table's own.
- The object class parser, whose lists have no reliable actions, and the boolean, octet string, IA5, numeric, printable, OID and time recognisers, which have the shape of those modelled.
- Users, groups, computers, organisational units, attributes and domain helpers: thin wrappers around the calls modelled here.
