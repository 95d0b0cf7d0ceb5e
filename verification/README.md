# Verification of the ZeroMQ-XOP core

The ZeroMQ-XOP lets Igor Pro functions be called through ZeroMQ messages and lets waves be published.
This project models the code between the three libraries it glues together (Igor Pro, libzmq, the JSON
library) and proves what that code promises. Igor calls are nondeterministic with the guarantees stated in
their contracts, a socket is a sequence of frames with a `more` flag, JSON is a datatype with a parser
and a printer. `dafny verify dfyconfig.toml` checks everything.

## Overview

| files | part of the program |
|---|---|
| `Marshal`, `ParameterHandler`, `CallFunction` | packing of parameters into one byte buffer, extraction, ownership of string handles |
| `Reports` | when a call is made and answered, what its answer says, and which strings are gone, in terms of type words and storage |
| `Signature`, `Validation`, `ProcessAndCall` | reading a function signature, `CanBeProcessed` and what its acceptance guarantees for the call |
| `Pipeline`, `Threads` | worker thread, request queue, drain on the main thread, conservation of messages; all threads ever created |
| `Lifecycle`, `IdleGuard` | which stops are lost, return or deadlock; what the guard of the IDLE event is for |
| `Locks` | order of all mutexes and of the join |
| `ConcurrentQueue`, `Notices` | the queue template and the output to Igor's history |
| `Frames`, `SendAtomicity`, `PubSub` | receivers and senders as parsers and printers of frames, interleaved sends, publishing of waves |
| `Json`, `WaveText`, `WaveTypes`, `WaveDocument`, `Waves`, `SerializeWave`, `ReadWave`, `WaveReport` | wave serialisation, its round trip, and the document entry by entry |
| `ColumnMajor` | index arithmetic of multi-dimensional waves |
| `Registry` | sockets, endpoints and subscription filters |
| `Request`, `Dispatch`, `Answers` | which payloads are accepted; validator, call, catch blocks and log entries up to the reply; codes, results and by-reference values as a client finds them |
| `ReplyPath`, `Delivery` | pipeline and sends as one system; one request from its arrival to what its client decodes |
| `Wrappers`, `Layout`, `Sockets`, `IgorTypes` | result types, sequence facts, bytes and offsets, socket types, Igor's type words |

Concurrent parts are step systems: a step is a block of code under one lock, and theorems hold for every sequence of
steps. Objects with updated fields are classes; their methods are proved against functions of the old state, and the
lemmas are about those functions. Every lemma carries `{:induction false}`, so that every induction is written out. A
specification function that a method is proved against has lemmas beside it that say what it means without naming it:
with type words, keys, codes and values spelled out. What Igor, the C library and exceptions do is an input of the
methods that depend on it, and outcomes are stated as exact conditions on these inputs. `hide` keeps definitions out
of proofs that do not need them.

## Statements that are false of the code, and what holds instead

- `CanBeProcessed` accepts an input word with the wave bit and the bit of `NT_FP64`, `HSTRING_TYPE` or
  `DATAFOLDER_TYPE`; the constructor then asserts (`AcceptedButAsserts`). For accepted signatures of known
  words the assertions cannot fail exactly if no input carries the wave bit (`AcceptanceSuffices`).
- An abort leaves a returned string allocated (`Call`, `LoseReturned`). An exception in the constructor leaves one
  string for each string input before the failing one, hence something exactly if there is such an input (`LeaksIff`,
  `LoseString`); no destructor disposes of them.
- A stop need not return. One that is called before the worker's own write of the flag is lost (`StopLostIff`,
  `LostForever`, `LostReachable`). Any other returns in every run exactly if it cannot end in a deadlock
  (`StopAlwaysReturnsIff`). It can exactly if the worker is starting, receiving, parsing or pushing and one of two
  things holds (`StopMayDeadlockIff`). Either user code inside a drain calls the stop (`DeadlockReachable`); or another
  thread calls it while the main thread can still come to user code in a drain, that is, the guard of the IDLE event is
  not stuck, and a request is still to be handled or the stop is lost as well. In the second case that user code starts
  or stops the handler too and waits for the mutex the stopping thread holds (`OtherDeadlockReachable`); without such
  user code these stops return (`StopReturns`).
- An exception in the IDLE handler outside of the drain ends all handling of requests
  (`WedgedIff`, `WedgedForever`, `WedgedReachable`).
- `version` is accepted exactly if the integer is 1 modulo 2^32 (`VersionIff`, `WrappedVersion`). The
  repository's documentation asks for the string `v1` (`Readme.rst:327`); the code wants the integer 1. The
  documentation calls the result `return`, the code `result`.
- A malformed message can yield errors and then a request. The receiver walks on by two frames over a non-empty second
  frame and by three over an empty one; a request comes out exactly if there are more than three frames, the walk lands
  on the last three, and the middle one of these is empty (`MalformedYieldsRequestIff`). The smallest such message has
  five frames (`ServerResumesInsideMalformed`). The client accepts exactly the messages with an even number of
  frames (`ClientReports`), and so does, sooner or later, the subscriber without additional frames: after one error
  for every earlier pair it yields the last two frames (`PairReports`).
- A rejected payload is answered without its message id, even if that id is valid (`HandlePayload`).
- A `history` entry does not always come with error code 107. A reply has one exactly if the function was aborted and
  has written something; its code is 107, or 8 when there was no memory for the exception about the abort
  (`HistoryIff`, `HistoryWithCode8`).
- A text arrives through publish and subscribe unchanged exactly if it has no NUL (`TextArrivesUnchanged`);
  storing a frame in a numeric wave stays within its memory exactly if the frame is a whole number of elements
  (`CopyFits`, `ThreeBytesOverrun`). The elements of a text wave are serialised as they are exactly if none has a NUL
  (`TextsSurviveIff`, `TextsReadIff`).

## Model

| member | source | states |
|---|---|---|
| Marshal.Memory.NewHandle | src/CallFunctionParameterHandler.cpp:92-96 | a new handle iff Igor offers one of the right width that is not null and did not exist, with the given content; otherwise the null handle and nothing changes |
| Marshal.Memory.Dispose | src/CallFunctionParameterHandler.cpp:46-52 | only existing handles may be disposed of, which the caller has to show; each disposal is logged |
| Marshal.WordTestsAgree | src/CallFunctionParameterHandler.cpp:220-250 | the destructor's comparison of whole words and the extraction's bit tests select the same parameters |
| Marshal.OffsetBound | src/CallFunctionParameterHandler.h:23 | the slots of fewer than MAX_NUM_PARAMS parameters fit in the buffer, for both pointer widths |
| Marshal.SlotsDisjoint | src/CallFunctionParameterHandler.cpp:163-177 | writing at the offset of one slot sets that slot and changes no other |
| Marshal.SlotsContiguous | src/CallFunctionParameterHandler.cpp:170-176 | every byte below the end of the parameters lies in a slot: there is no padding |
| Marshal.DocsPartition | src/CallFunctionParameterHandler.cpp:180-195 | the two extractions of a call split the by-reference parameters without overlap or gap, in order |
| Marshal.DocsOfReferences | src/CallFunctionParameterHandler.cpp:243-267 | when all parameters are by reference each one gives exactly one entry |
| ParameterHandler.ConvertStringToIgorTypeUnion | src/CallFunctionParameterHandler.cpp:80-105 | the union holds the converted parameter; an assertion fails only if the parameter is not convertible |
| ParameterHandler.ExtractFromUnion | src/CallFunctionParameterHandler.cpp:31-78 | unless something is thrown the entry says for each type word what is in place: the number, the text of the handle or none for the null handle, the folder or the wave, with the name of its type; afterwards the handle of a string, a data folder or a free wave is nulled in place and everything else is as before; a string is disposed of; an exception changes nothing |
| ParameterHandler.Handler.ComputeSizes | src/CallFunctionParameterHandler.cpp:127-158 | succeeds iff all type words are known, and then gives sizes that fit in the buffer |
| ParameterHandler.Handler.Store | src/CallFunctionParameterHandler.cpp:173 | a copy to the cursor of slot i sets slot i and no other |
| ParameterHandler.Handler.Pack | src/CallFunctionParameterHandler.cpp:160-177 | before the turn that ended the loop each input slot holds its converted parameter, the slots of return values stay zero, and the new handles are those in the slots |
| ParameterHandler.Handler.Construct | src/CallFunctionParameterHandler.cpp:109-178 | succeeds iff the signature is accepted, nothing keeps an input from being converted and there is memory for the strings; then slot i holds input i - first; a failure names the input and its cause and leaves one string per string input before it; no handle is disposed of |
| ParameterHandler.LeaksIff | src/CallFunctionParameterHandler.cpp:160-177 | an exception in the constructor leaves a string allocated iff a string input precedes the failing one |
| ParameterHandler.AbandonedByAssertion | src/CallFunctionParameterHandler.cpp:109-178 | an assertion failure of the constructor means that the input could trigger one |
| ParameterHandler.LoseString | src/CallFunctionParameterHandler.cpp:160-177 | a string followed by something that is no number: one more handle exists afterwards |
| ParameterHandler.Handler.ReadTurn | src/CallFunctionParameterHandler.cpp:243-267 | one turn of the extraction at the cursor, cut short exactly by the exceptions at this parameter |
| ParameterHandler.Handler.ReadPassByRefParameters | src/CallFunctionParameterHandler.cpp:237-270 | yields the entries of exactly the by-reference parameters of the range iff nothing is thrown there; otherwise it ends at the first exception, and what it disposed of is a prefix |
| ParameterHandler.Handler.GetPassByRefInputArray | src/CallFunctionParameterHandler.cpp:180-188 | reads all by-reference parameters from the first input on |
| ParameterHandler.Handler.GetReturnValues | src/CallFunctionParameterHandler.cpp:190-203 | reads the leading by-reference parameters, or the return storage; then that string is disposed of once |
| ParameterHandler.Handler.Destroy | src/CallFunctionParameterHandler.cpp:215-235 | disposes of exactly the non-null by-reference strings left in the slots, in order, and of nothing else |
| ParameterHandler.ReadingComposes | src/CallFunctionParameterHandler.cpp:237-270 | two consecutive extractions amount to one over both ranges |
| ParameterHandler.DestructorCompletes | src/CallFunctionParameterHandler.cpp:215-235 | after an extraction of any prefix the destructor disposes of exactly the rest |
| ParameterHandler.DocsUntouched | src/CallFunctionParameterHandler.cpp:237-270 | the entries of later parameters do not depend on earlier extractions |
| CallFunction.OwnedHandlesAreDistinct | src/CallFunctionParameterHandler.cpp:215-235 | the handles listed for disposal are pairwise different and all exist |
| CallFunction.Extract | src/CallFunctionOperation.cpp:220-230 | an answer is given iff nothing is thrown; result and passByReference together report each by-reference parameter once; an exception leaves a prefix extracted |
| CallFunction.Call | src/CallFunctionOperation.cpp:194-234 | the call is made iff the parameters can be packed; it fails, is aborted, is interrupted or gives an answer iff Igor, the abort and the exceptions say so; on every path the by-reference strings, pairwise different and existing, are disposed of exactly once, by-value ones never, the returned one iff its value is read; answers have the computed number of results; a function that changes nothing leaves the converted inputs in place; a failed constructor leaves what it has made |
| Reports.PackableIff | src/CallFunctionParameterHandler.cpp:80-178 | the call is made iff there are fewer than 100 parameters, as many texts as inputs, no unknown word, each input is a text, readable as a number or names a folder, and there is a new handle for each string input |
| Reports.Obstacles | src/CallFunctionParameterHandler.cpp:80-105 | what keeps an input from being converted, for each type word |
| Reports.AnsweredIff | src/CallFunctionOperation.cpp:194-234 | a call that is made fails or is aborted iff Igor or the user say so, and is otherwise answered iff nothing is thrown at a by-reference parameter, a single return value or the assembly |
| Reports.ReferencesReported | src/CallFunctionParameterHandler.cpp:180-188 | passByReference has one entry for each by-reference parameter that is no return value, in order, which says what the function has left there |
| Reports.ResultsReported | src/CallFunctionParameterHandler.cpp:190-203 | the result has one such entry for each leading reference, or one for the return storage |
| Reports.InputsReadBack | src/CallFunctionParameterHandler.cpp:31-78 | if the function changes nothing, passByReference gives back each by-reference input: the text passed, the number it stands for, the folder of that name |
| Reports.StringsDisposed | src/CallFunctionParameterHandler.cpp:215-235 | the returned string, if its value is read, and then all strings the by-reference parameters refer to, in order, each once, are disposed of; all other strings stay as they were |
| Reports.Echo | src/CallFunctionOperation.cpp:194-234 | a call whose answer is the one text that was passed by reference |
| CallFunction.LoseReturned | src/CallFunctionOperation.cpp:208-218 | an aborted function that returns a string: the string is still there after the call |
| Signature.LeadingRefs | src/HelperFunctions.cpp:636-645 | the number of parameters before the first one not passed by reference |
| Signature.ReturnCountIsDeclared | src/HelperFunctions.cpp:624-646 | for outputs followed by inputs the computed count is the declared one iff the inputs do not start by reference |
| Validation.CanBeProcessed | src/CallFunctionOperation.cpp:75-192 | the verdict is one whose condition holds |
| Validation.JudgedOnce | src/CallFunctionOperation.cpp:75-192 | the conditions exclude each other, so that each verdict is given iff its condition holds |
| Validation.CheckSignature | src/CallFunctionOperation.cpp:135-189 | accepts iff return type and all parameter words are supported; an unsupported return type is refused first, otherwise the first refused word decides the error; each outcome iff its condition |
| Validation.VerdictMeans | src/CallFunctionOperation.cpp:75-192 | the verdict for every found function, with all type words spelled out |
| Validation.AcceptanceSuffices | src/CallFunctionOperation.cpp:121-189 | for accepted signatures of known words no assertion of the constructor can fail iff no input has the wave bit |
| Validation.ReturnTypeKnown | src/CallFunctionOperation.cpp:138-143 | an accepted return type never reaches the assertion of the extraction |
| Validation.RefusedInputsAreWaves | src/CallFunctionOperation.cpp:150-189 | among known words only those of waves are refused as inputs, plain wave words always; none is refused as an output |
| ProcessAndCall.Process | src/HelperFunctions.cpp:284-292 | validator and call together: a refused call touches nothing; an accepted one ends as its course has it, with the call's account, and runs into no assertion if no input has the wave bit; with such an input it never runs |
| Validation.AcceptedButAsserts | src/CallFunctionOperation.cpp:174-185 | an accepted call on which the constructor asserts |
| Pipeline.MessagesConserved | src/MessageHandler.cpp:39-180 | in every run: order of arrival, each message in exactly the place its fate says, at most one reply, exactly one if its call ended in success or an IgorException and the send succeeded |
| Pipeline.RepliesCanGoOut | src/MessageHandler.cpp:103-124 | the document for a call that succeeded or ended in an IgorException can always be sent, and the send can succeed and fail; the request is then taken from the queue with that fate; after any other exception it is taken at once |
| Pipeline.WorkerCanStep | src/MessageHandler.cpp:39-101 | what the worker can do wherever it is; only the queue's mutex can keep it from going on |
| Pipeline.CallsCanRun | src/ConcurrentQueue.h:62-71 | a drain calls for each request, any call can end in any way, and without requests the queue is released |
| Pipeline.IdleCanStep | src/ZeroMQ.cpp:30-50 | what an IDLE event does outside of the drain |
| Pipeline.ControlCanStep | src/MessageHandler.cpp:128-167 | when starting, stopping and joining are possible and what they write |
| Lifecycle.CanBecomeIff | src/MessageHandler.cpp:39-124 | everything can become of a message, but that its call throws and it is replied to nevertheless |
| Pipeline.RunExtends | src/MessageHandler.cpp:150-167 | no step, in particular no stop, loses an accepted or a handled request |
| Lifecycle.StopLostIff | src/MessageHandler.cpp:24-28 | a stop is lost iff its write comes before the worker's initial write |
| Lifecycle.LostForever | src/MessageHandler.cpp:150-167 | a lost stop never returns |
| Lifecycle.LostReachable | src/MessageHandler.cpp:24-28 | a stop can be lost |
| Lifecycle.StopTakesEffect | src/MessageHandler.cpp:43-51 | unless a stop is lost the flag stays set and after at most five worker steps the join can return |
| Lifecycle.StopCanReturnIff | src/MessageHandler.cpp:150-167 | some run lets a stop return iff it comes after the worker's initial write and not from inside the drain while the worker wants to push |
| Lifecycle.StopMayDeadlockIff | src/MessageHandler.cpp:128-179 | some run takes a stop into a deadlock iff the worker can still push and the stop is inside the drain, or another thread stops and user code can come to run in a drain |
| Lifecycle.StopAlwaysReturnsIff | src/MessageHandler.cpp:128-179 | no run keeps a stop from returning iff it comes after the initial write and is not one of those |
| Lifecycle.StopReturns | src/MessageHandler.cpp:43-51 | such a stop, and on another thread any stop while user code does not start or stop: at most five worker steps, each delayed by a drain at most, then the join returns |
| Lifecycle.StuckIffDeadlocked | src/MessageHandler.cpp:128-179 | the system can take no step iff the worker wants to push while the main thread, inside the drain, joins or waits for the mutex of a thread that joins |
| Lifecycle.DeadlockReachable | src/MessageHandler.cpp:150-179 | the first of these states is reachable |
| Lifecycle.OtherDeadlockReachable | src/zeromq_stop.cpp:8-16 | the second one is reachable: another thread stops, user code in the drain starts or stops |
| Lifecycle.LaterDeadlockReachable | src/MessageHandler.cpp:150-179 | a stop, on either thread, that finds the worker receiving: it can return, and it can deadlock |
| IdleGuard.NeverLockedAgain | src/ZeroMQ.cpp:30-38 | in every run at most one activation of the handler exists and the queue's mutex is never locked again by its holder |
| IdleGuard.NestedEventIgnored | src/ZeroMQ.cpp:30-38 | an IDLE event during a call for a drained request changes nothing |
| IdleGuard.LockedAgainWithoutGuard | src/ZeroMQ.cpp:30-38 | if the flag is ignored a run locks the mutex again |
| IdleGuard.WedgedIff | src/ZeroMQ.cpp:30-50 | the guard stays set outside of an IDLE event exactly after an exception |
| IdleGuard.WedgedForever | src/ZeroMQ.cpp:30-50 | from then on no request is handled |
| IdleGuard.WedgedReachable | src/ZeroMQ.cpp:30-50 | this can happen while a request waits |
| Threads.StepIsSeen | src/MessageHandler.cpp:128-148 | with all threads ever created, a step keeps at most one of them alive and is a step of Pipeline |
| Threads.RunIsSeen | src/MessageHandler.cpp:128-167 | in every run at most one thread is alive, and the run is one of Pipeline |
| Threads.StepIsTaken | src/MessageHandler.cpp:128-167 | each step of Pipeline is a step of these threads |
| Threads.AllThreadsConserve | src/MessageHandler.cpp:20-180 | conservation and order of messages for any number of starts and stops |
| Locks.ProgramIsCovered | src/MessageHandler.cpp:20-180 | starting, stopping, draining and the use of a socket are code of the forms considered |
| Locks.ThreadCodeRanked | src/MessageHandler.cpp:20-180 | all code takes locks in the order of their ranks |
| Locks.WaitsForIsAcyclic | src/SocketWithMutex.h:6-35 | for any code of that form and any interleaving the waits-for graph has no cycle |
| Locks.DeadlockFree | src/ConcurrentQueue.h:62-71 | some thread can always take a step until all have finished |
| Locks.OutOfOrder | src/ZeroMQ.cpp:30-38 | stopping inside the drain, or draining inside the drain, breaks the order |
| ConcurrentQueue.Queue.Push | src/ConcurrentQueue.h:21-26 | appends |
| ConcurrentQueue.Queue.TryPop | src/ConcurrentQueue.h:42-55 | removes the front element, or reports an empty queue and changes nothing |
| ConcurrentQueue.Queue.ApplyToAll | src/ConcurrentQueue.h:62-71 | the functor is applied to all elements in order and the queue is empty afterwards |
| Notices.OutputToHistory_TS | src/ConcurrentXOPNotice.cpp:33-44 | the main thread prints all queued notices and then its own; other threads only queue |
| Notices.OutputQueuedNotices | src/ConcurrentXOPNotice.cpp:46-55 | prints the queue in order; does nothing on other threads |
| Notices.LineMeans | src/ConcurrentXOPNotice.cpp:9-18 | an empty notice prints nothing, any other its text and a carriage return |
| Notices.DrainFinishes | src/ConcurrentXOPNotice.cpp:33-55 | a drain can always be finished, and then all queued notices and the own one are printed |
| Notices.HistoryFollowsLog | src/ConcurrentXOPNotice.cpp:9-55 | in every interleaving the history is a prefix of all outputs in order, the rest is pending or queued |
| Notices.ProgramOrderKept | src/ConcurrentXOPNotice.cpp:33-55 | each thread's outputs are logged in the order of its program, and none is lost |
| Notices.EarlierNoticesFirst | src/ConcurrentXOPNotice.cpp:33-40 | whatever was output before a main-thread output starts is printed before it |
| Frames.ServerCompositional | src/HelperFunctions.cpp:403-433 | a receive takes frames of one message only, a success ends at its end, neighbours do not matter |
| Frames.ClientCompositional | src/HelperFunctions.cpp:438-463 | the same for the client |
| Frames.SubscriberCompositional | src/HelperFunctions.cpp:471-521 | the same for the subscriber, in both modes |
| Frames.ReceiveAllComposes | src/HelperFunctions.cpp:403-521 | receiving a concatenation gives the concatenation of what its parts give |
| Frames.ReceiveAllOfMessages | src/HelperFunctions.cpp:403-521 | no message, malformed or not, changes what is reported for another |
| Frames.ServerWellFormed | src/HelperFunctions.cpp:399-433 | a message yields one request and nothing else iff it is identity, empty frame, payload |
| Frames.ServerReportsAtMostOne | src/HelperFunctions.cpp:403-433 | only the last report on a message can be a request, made of its last frames |
| Frames.YieldsRequestIff | src/HelperFunctions.cpp:403-433 | a message is sooner or later received as a request iff the walk over its frames lands on one |
| Frames.MalformedYieldsRequestIff | src/HelperFunctions.cpp:415-430 | a malformed message yields a request iff it has more than three frames and the walk lands on one; it then has at least five |
| Frames.ServerResumesInsideMalformed | src/HelperFunctions.cpp:415-430 | the smallest such message, one in which the receiver goes on by three frames, and one with the same end that yields none |
| Frames.ClientReports | src/HelperFunctions.cpp:438-463 | the client accepts exactly messages with an even number of frames |
| Frames.FirstReports | src/HelperFunctions.cpp:403-463 | one receive of a message by the server and the client, by its frames |
| Frames.SubscriberReports | src/HelperFunctions.cpp:465-521 | one receive of a message by the subscriber, by its number of frames; without additional frames one of more than two is malformed |
| Frames.MultiReports | src/HelperFunctions.cpp:471-521 | with additional frames there is one report on each message |
| Frames.PairReports | src/HelperFunctions.cpp:471-521 | without them there is one for every two frames, and a success iff their number is even: the last two frames |
| Frames.EnvelopesRoundTrip | src/HelperFunctions.cpp:329-397 | what the senders emit is received as what was sent |
| Frames.Socket.ServerReceive | src/HelperFunctions.cpp:403-433 | popping frame by frame does what the parser function says |
| Frames.Socket.ClientReceive | src/HelperFunctions.cpp:438-463 | the same for the client |
| Frames.Socket.SubscriberReceive | src/HelperFunctions.cpp:471-521 | the same for the subscriber |
| Frames.Socket.ServerSend | src/HelperFunctions.cpp:349-372 | emits the whole envelope iff the peer is known and the library accepts the first frame, otherwise nothing; succeeds iff the payload is not empty as well |
| Frames.Socket.ClientSend | src/HelperFunctions.cpp:329-347 | the same for the client |
| Frames.Socket.PublisherSend | src/HelperFunctions.cpp:374-397 | all parts, with more frames announced on all but the last |
| SendAtomicity.SendsAreAtomic | src/HelperFunctions.cpp:349-372 | in every interleaving the stream is whole envelopes followed by at most one begun |
| SendAtomicity.SendCompletes | src/HelperFunctions.cpp:349-372 | a waiting send can go through once the mutex is free, and emits identity, empty frame, payload |
| SendAtomicity.ClientsDecodeReplies | src/HelperFunctions.cpp:349-463 | each client decodes exactly the payloads addressed to it, in the order of the sends |
| PubSub.Container.GatherPubData | src/send_struct.cpp:5-94 | succeeds iff the container and each row are valid, and gives each row's bytes |
| PubSub.Container.ConvertSubData | src/send_struct.cpp:96-209 | succeeds iff each frame can be stored in its row; an error leaves earlier rows converted and later ones untouched |
| PubSub.RowGathered | src/send_struct.cpp:38-86 | which rows can be published, what is sent of each, and the error for the others |
| PubSub.RowStored | src/send_struct.cpp:116-201 | which frames can be stored in which rows, and the type, size and contents of the wave then |
| PubSub.StoreFrame | src/send_struct.cpp:116-201 | one turn of the loop: find or make the wave, resize it, copy |
| PubSub.ArrivedMeans | src/send_struct.cpp:116-201 | what arrives of a text, of numbers in a wave of their type, and of numbers in an empty row |
| PubSub.Transfer | src/send_struct.cpp:5-209 | if the library accepts the message, gather, send, receive and convert reproduce number of frames, texts and numeric bytes, flattened to one dimension |
| IgorTypes.ElementSizes | src/HelperFunctions.cpp:115-148 | the size of each element type; all other words have none |
| PubSub.TextArrivesUnchanged | src/send_struct.cpp:184-191 | a text is stored unchanged iff it has no NUL |
| PubSub.CopyFits | src/send_struct.cpp:178-199 | the copy stays within the wave iff the frame is a whole number of elements |
| PubSub.ThreeBytesOverrun | src/send_struct.cpp:178-199 | three bytes for a wave of 16-bit integers |
| ColumnMajor.ColumnMajorBijection | src/HelperFunctions.cpp:920-931 | in-range index tuples and memory indices below the number of points correspond one to one |
| ColumnMajor.IndexFormula | src/HelperFunctions.cpp:920-931 | the index for one to four dimensions: the first one varies fastest |
| ColumnMajor.PartialProductsBounded | src/HelperFunctions.cpp:920-931 | no partial sum or product exceeds the number of points |
| ColumnMajor.GetWaveIndexInMemory | src/HelperFunctions.cpp:904-933 | the loop succeeds iff there is a wave and four indices, each in range, and then gives the column-major index, below the number of points |
| Json.FindPut | src/RequestInterface.cpp:62-66 | assignment to a key sets that entry and no other |
| Json.StringRoundTrip | src/SerializeWave.cpp:14-17 | a quoted string is read back, whatever it contains (RFC 7158, section 7) |
| Json.DumpMeans | src/SerializeWave.cpp:181-182 | what the printer writes for a value is read as that value in any surrounding text |
| Json.ReprintIffParsed | src/SerializeWave.cpp:567-568 | printing and parsing again changes nothing, exactly for the values a parser can return |
| WaveText.OutputArray | src/SerializeWave.cpp:198-215 | for at least one element the buffer holds the array's text |
| WaveText.ArrayMeans | src/SerializeWave.cpp:198-215 | that text is read as the array of what its items are read as |
| WaveText.BlockReadable | src/SerializeWave.cpp:246-265 | reading the text block string by string never runs past its end |
| WaveText.ShownBegins | src/SerializeWave.cpp:246-265 | whatever the elements contain, the strings read are without NUL and, each followed by one, the beginning of the block |
| WaveText.TextsSurviveIff | src/SerializeWave.cpp:246-265 | the strings read are the elements iff no element has a NUL |
| WaveText.OutputTexts | src/SerializeWave.cpp:253-267 | the pointer walk writes exactly those strings |
| WaveText.ComplexParses | src/SerializeWave.cpp:334-343 | the template with both parts filled in is read as an object with both parts |
| WaveText.NatRoundTrip | src/SerializeWave.cpp:346-358 | a size is read back from its decimal text |
| WaveTypes.SupportedIsWritten | src/SerializeWave.cpp:276-319 | neither switch asserts on a supported type, and they agree on it |
| WaveTypes.TypeStringMeans | src/SerializeWave.cpp:45-99 | the type string of each word: the name of its base type, then complex, then unsigned |
| WaveTypes.SupportedIff | src/SerializeWave.cpp:272-327 | the words of supported types |
| WaveTypes.TypeStringInjective | src/SerializeWave.cpp:45-99 | the type string determines the type word |
| WaveDocument.DocumentRoundTrip | src/SerializeWave.cpp:564-578 | every entry is found again under its documented key, and no entry that was not set |
| Waves.DocWellFormed | src/SerializeWave.cpp:543-579 | the document of any wave tree is one the printer and the parser agree on |
| SerializeWave.NumbersToString | src/SerializeWave.cpp:217-232 | the text of a stretch of the data; an empty wave gives an empty array |
| SerializeWave.TextsToString | src/SerializeWave.cpp:234-270 | the text of what is read of the elements of a text wave, with or without NUL in them |
| SerializeWave.WavesToString | src/SerializeWave.cpp:174-184 | referenced waves are serialised, printed and inserted; recursion ends by tree height |
| SerializeWave.WaveToString | src/SerializeWave.cpp:272-344 | the text parses to the raw data; complex data as real half and imaginary half |
| SerializeWave.DimensionSizesToString | src/SerializeWave.cpp:346-358 | the text parses to the sizes, [0] for an empty wave |
| SerializeWave.AddDataFullScaleIfSet | src/SerializeWave.cpp:360-381 | left out iff both values are zero or both are not a number; otherwise both are given in order |
| SerializeWave.AddDimensionScalingIfSet | src/SerializeWave.cpp:396-426 | offset and delta are both left out iff every offset is 0 and every delta is 1; otherwise both are given for all dimensions |
| SerializeWave.CopyNonEmpty | src/SerializeWave.cpp:436-447 | the copy equals the units or labels, and is marked iff one is not empty |
| SerializeWave.LabelPosition | src/SerializeWave.cpp:496-517 | the label of index j in dimension i lies at the sum of the earlier sizes plus j, within the array |
| SerializeWave.CollectLabels | src/SerializeWave.cpp:489-517 | each position is written at most once, in bounds, with its label |
| SerializeWave.SerializeWave | src/SerializeWave.cpp:543-579 | for every wave tree no parse fails and the document is the specified one |
| ReadWave.RoundTrip | src/SerializeWave.cpp:543-579 | reading the document by the documented format returns the tree up to documented defaults |
| WaveReport.ScalingReported | src/SerializeWave.cpp:396-426 | in the document offset and delta are left out iff each offset is 0 and each delta is 1, otherwise all of them are found, in order, as their texts or names |
| WaveReport.FullScaleReported | src/SerializeWave.cpp:360-381 | the full scale is left out iff both limits are 0 or none is a number, otherwise both are found |
| WaveReport.TextsReported | src/SerializeWave.cpp:383-541 | type, modification date, unit, note, dimension units and full labels: what is found, and what is left out when empty |
| WaveReport.SizeReported | src/SerializeWave.cpp:346-358 | the sizes found in the document |
| WaveReport.LabelsReported | src/SerializeWave.cpp:489-526 | the labels of all indices: left out iff all are empty, otherwise dimension by dimension |
| WaveReport.RawReported | src/SerializeWave.cpp:174-344 | the raw data for each kind of wave, element by element |
| WaveReport.EntriesReadBack | src/SerializeWave.cpp:543-579 | a reader finds the wave's own type, sizes, date, units, labels and note, its scaling and full scale, or their defaults where they are left out |
| WaveReport.RawReadBack | src/SerializeWave.cpp:272-344 | and its own raw data, references read in turn |
| WaveReport.ShiftedReported | src/SerializeWave.cpp:396-426 | a wave whose offset is 5 and whose delta is 1: both are in its document |
| ReadWave.RoundTripThroughText | src/SerializeWave.cpp:543-579 | the same after printing and parsing the document |
| ReadWave.TextsReadIff | src/SerializeWave.cpp:234-270 | a text wave is read with its own elements iff none has a NUL |
| ReadWave.RawIsColumnMajor | Readme.rst:394-395 | for waves of all types: the position GetWaveIndexInMemory computes is where the element lies in memory and where a reader of the printed raw data finds it |
| Registry.GlobalData.constructor | src/GlobalData.cpp:85-90 | no socket, endpoint or filter at first |
| Registry.GlobalData.ZMQSocket | src/GlobalData.cpp:92-112 | a socket is created once and starts without subscription |
| Registry.GlobalData.DoBindOrConnect | src/HelperFunctions.cpp:829-856 | the endpoint is listed for that socket only |
| Registry.GlobalData.AddSubscriberMessageFilter | src/GlobalData.cpp:318-339 | a filter is added unless it is there; list and subscriptions stay equal; the other sockets are untouched |
| Registry.GlobalData.RemoveSubscriberMessageFilter | src/GlobalData.cpp:341-377 | removes that filter and no other, all of them for the empty one, or reports it missing |
| Registry.GlobalData.CloseConnections | src/GlobalData.cpp:157-212 | leaves no socket, endpoint or filter |
| Registry.DeliveredIffListed | src/GlobalData.cpp:334-338 | a topic is delivered iff it starts with a listed filter (RFC 29/PUBSUB) |
| Registry.OtherFiltersStay | src/GlobalData.cpp:364-376 | removing a filter takes away only what no other filter lets through |
| Request.VersionIff | src/RequestInterface.cpp:93-105 | an integer version is accepted iff it is 1 modulo 2^32 |
| Request.AcceptedIff | src/RequestInterface.cpp:91-138 | which payloads are accepted, key by key and limit by limit |
| Bytes.TextBytesMeans | src/RequestInterface.cpp:15-18 | the size of a text in bytes, as std::string counts UTF-8 |
| Request.RefusedCodes | src/RequestInterface.cpp:91-138 | the code of each refused payload, by the first check that fails |
| Request.ParamTexts | src/CallFunctionOperation.cpp:50-70 | strings, numbers and truth values as parameters |
| Request.PlainRequest | Readme.rst:101-116 | the documented request is accepted |
| Request.WrappedVersion | src/RequestInterface.cpp:100 | 4294967297 is accepted |
| Request.ParseOperation | src/CallFunctionOperation.cpp:10-73 | accepted iff there is a non-empty name, valid parameters and nothing else; parameters are kept in order; each error iff its condition holds |
| Request.RequestInterface.FillFromJSON | src/RequestInterface.cpp:91-138 | success iff all checks hold, with the payload's id and operation; each error iff its check is the first to fail |
| Request.RefusedIffNotAccepted | src/RequestInterface.cpp:22-138 | every payload is either accepted or refused, with one code only |
| Request.HandlePayload | src/RequestInterface.cpp:22-44 | a payload becomes a request, with its id, name and parameters, iff it is accepted; otherwise it is answered with the code of the first failing check and without id; also when its log entry throws |
| Request.ErrorReplyCorrelated | src/HelperFunctions.cpp:305-327 | an error reply carries code, id and history exactly if there are such |
| Request.SuccessReplyCorrelated | src/RequestInterface.cpp:57-68 | a success reply carries code 0, the results and the id exactly if the request has one |
| Request.ErrorReplyMeans | src/HelperFunctions.cpp:305-327 | an error reply key by key |
| Request.SuccessReplyMeans | src/RequestInterface.cpp:57-68 | a success reply key by key |
| Dispatch.Execute | src/CallFunctionOperation.cpp:194-234 | the outcome is that of the validator and the call, each error with its code; the history is set only by an abort |
| Dispatch.CallIgorFunction | src/HelperFunctions.cpp:284-327 | the two catch blocks give the specified reply for every outcome of validator, call and log entries |
| Dispatch.RepliedIff | src/HelperFunctions.cpp:284-327 | there is a reply iff the answer, or the IgorException or lack of memory, could be logged; it carries id and code, and the results for code 0 |
| Dispatch.WaveArrives | src/SerializeWave.cpp:543-579 | a wave that a function returns is read back from its reply, up to documented defaults |
| Answers.AnswerReported | src/CallFunctionOperation.cpp:220-231 | the reply to an answer has code 0; its result is an array, one entry or null; passByReference is there iff there are such parameters, one entry for each with its type and value |
| Answers.VerdictCodes | src/Errors.h:22-40 | the code for each verdict of the validator |
| Answers.CallCodes | src/HelperFunctions.cpp:284-327 | the code, or no reply, for each way a call can end |
| Answers.InputsArrive | src/CallFunctionOperation.cpp:194-234 | when a function that changes nothing is answered, the reply gives back each input that was passed by reference, in order |
| Dispatch.HistoryIff | src/CallFunctionOperation.cpp:208-218 | a reply has a history iff the function was aborted and has written something; the code is then 107, or 8 |
| Dispatch.HistoryWithCode8 | src/HelperFunctions.cpp:301-317 | a reply with a history and code 8 |
| Dispatch.CallAndReply | src/MessageHandler.cpp:103-124 | something is sent iff there is a reply; it is addressed to the request's identity and its text parses to that reply |
| ReplyPath.AnswersAreReplies | src/MessageHandler.cpp:53-180 | for every interleaving of pipeline, sends and other threads' sends: when none is under way the completed answers are exactly the replies counted, each with its message's envelope |
| Delivery.ClientDecodesReplies | src/MessageHandler.cpp:53-180 | in every such run: the client of a handled request decodes the documents of the messages answered to it, the request among them exactly once iff its call ended with a document that was sent |
| Delivery.RepliesAreMatched | src/RequestInterface.cpp:62-66 | a client that uses an id once, and is sent it by nobody else, finds exactly one document with it iff that request was replied to |
| Delivery.MatchedReply | src/RequestInterface.cpp:62-66 | the document found is the reply to that request, with its code |
| ReplyPath.AnswerCanMove | src/MessageHandler.cpp:53-124 | what a thread that has an answer can do next, from the call of the send to its return |
| Delivery.AnswerCanArrive | src/MessageHandler.cpp:103-124 | for every accepted payload and every code its call ends with there is a history in which the document for it is sent and decoded by its client |
| Delivery.RefusalCanArrive | src/MessageHandler.cpp:64-82 | the same for the answer to a refused payload |

## Left out

- libzmq, Igor's XOP calls and the JSON and fmt libraries beyond what is described above: foreign code.
- Floating-point formatting: a number is its text; that 15 digits do not determine a double, and that the JSON
  library may print a parsed number differently, is not modelled.
- Characters are not encoded, only their bytes are counted: the check for valid UTF-8 in the printer and escapes of
  surrogate pairs are not part of the model (an escape of a surrogate is refused).
- Pipeline.Next: an exception while zmq messages are initialised, which ends the process, is not a step.
- PubSub.Container.ConvertSubData: the same wave referenced by two rows, and a null container, are not modelled, because
  waves are values here.
- Registry.GlobalData.CloseConnections: failing zmq calls are not modelled, nor the window between fetching a
  socket pointer and locking its mutex (src/SocketWithMutex.h:6-8); the invariant holds between API calls.
- ParameterHandler.Handler.IgorCall: user code in Igor is assumed to leave valid, unshared string handles behind.
- Request.HandlePayload: shortage of memory while a payload is parsed is not modelled; the message texts of errors are
  not either.
- Dispatch.Execute: shortage of memory in the validator is not modelled, and in the constructor only for Igor's
  strings; the second look-up of the function (src/CallFunctionOperation.cpp:199) is taken to find what the first one
  found. The JSON of numbers and the paths of data folders are inputs. A result is taken to have the documented shape
  (Readme.rst:136, 215).
- Delivery.RepliesAreMatched: replies are assumed to have gone through one server socket that stays open.
- Lifecycle.StopReturns: other waits of the main thread, for example for an Igor thread that stops, are not modelled.
- Locks: lock ordering of the heartbeat publisher, whose life cycle is that of the message handler with less state.
- Log files, timestamps, time zones, directory creation, logging templates.
- Conversion of modification dates; a date is a natural number here.
- Socket options, endpoint strings, IPv6, flags, the table of error messages, the entry points `zeromq_*.cpp`: thin
  wrappers.
