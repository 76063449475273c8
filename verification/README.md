# A verified model of the Noise socket proxy

An nginx module proxies TCP streams and speaks Noise (NoiseSocket) on either side of the proxy; a Go
client speaks the same protocol from outside. This project models the parts of it in which something
can go wrong quietly, and proves what they are for:

- **Balancing** (`RoundRobin`, `SmoothWeights`, `Fairness`, `FairSessions`, `PeerWeights`, `Balancer`,
  `Sessions`, `SessionRetries`, `PeerRest`, `PeerRecovery`, `RoundRobinPeers`, `ProxyRetry`). Smooth
  weighted round robin is exactly fair, in whole runs of sessions too; over every interleaving of any
  number of sessions connections are counted exactly, weights are conserved, no session asks a peer twice
  or gives up while there is one left to ask, a peer that failed too often is left alone for its time and
  forgiven afterwards, and the retry recursion ends. The objects that are updated in place are proved
  against the pure specification that these theorems are about.
- **Templates** (`Template`, `TemplateGrammar`, `Variables`, `ScriptCode`, `ScriptRun`, `ScriptCompile`,
  `ScriptCompiler`, `Script`, `ScriptMeaning`). A string with variables is compiled to two byte
  streams, one that sizes the result and one that fills it. The result is direct substitution, for every
  template that compiles, and both passes agree even if variable handlers answer differently on every
  call. What the bytes of a template mean is stated byte by byte.
- **Noise framing** (`Framing`, `NoiseConnection`, `NoiseTransfer`, `ProxyBuffer`). What is written is
  read back chunk by chunk, however the bytes are cut up and however often the reader is suspended;
  encryption in place always fits.
- **The handshake** (`HandshakeReads`, `Handshake`, `HandshakeLink`, `HandshakeCuts`,
  `HandshakeVersion`). Two endpoints, woken in any order any number of times, stay in step through the
  three XX messages (section 7.5 of the Noise Protocol Framework) and take no byte behind the third; a
  version mismatch ends refused on both sides. Which ways of cutting the messages into pieces the handshake survives is stated exactly.
- **Configuration compilers** (`Phases`, `PhaseCodes`, `Listeners`). The flat jump table runs as the
  nested phases mean, and what each reply of a handler does to a run is stated on the run;
  sorted and grouped listening sockets give a connection the most specific server.
- **Queues and codecs** (`WriteFilter`, `GoStream`, `WebSocket`, `Base64`, `Base64Standard`,
  `Base64Text`, `Base64Keys`).
  The saved output chain is a queue; the Go stream, WebSocket frames (RFC 6455) and base64 keys (RFC 4648) round trip.

`Bytes` holds what all of them share. Code that updates fields, arrays or cursors in place is modelled
by classes and methods with loops, each proved against a function; the theorems are about the function.

What the environment decides is a parameter: times, connect outcomes, what arrives when, how much a
send takes, what handlers answer, the mask key. The cipher is abstract: sealing adds 16 bytes, and
unsealing under the same nonce undoes it. noise-c's handshake is abstract: three messages in the order
of the pattern, each accepted by the other side.

## Where the code differs from what one would expect

- A variable whose handler fails is marked "not found" without the no-cacheable mark unless it carried
  one before and the handler left it there. So a no-cacheable variable that fails on its first call, or
  whose handler clears the mark before it fails, is never asked again in that session.
  `Variables.FailureSticks` gives the exact condition for one step, `Script.NeverAskedAgain` for any
  sequence of evaluations, `Script.FailOnce` a session it happens to.
- White space in a base64 key file is not skipped but read as another copy of the letter before it, and
  a broken line loads another key without an error (`Base64Keys.BrokenLine`). `Base64Keys.WhiteSpace`
  says exactly which white space a key survives.
- The length inside a Noise message is compared with the room in the buffer, not with the plaintext, so
  an authentic message can be delivered with bytes behind it that were never sent
  (`NoiseConnection.TwoBytesForAHundred`), and of a plaintext of less than two bytes the length itself is
  read from what the buffer held. `NoiseConnection.PrefixDecides` gives the exact condition for every
  plaintext. The Go client checks this length.
- The length of a Noise message is not compared with the buffer it is read into. With a buffer_size of
  65516 the field [255, 255] announces a body that runs past the end (`NoiseConnection.TooLargeAndEmpty`);
  no peer can do this exactly if buffer_size is at least 65517, the default and the largest allowed
  (`NoiseConnection.OnlyTheLargestBuffer`).
- A handshake message that has to be waited for is entered again from the start: msg_num moves on once
  more and the data read so far is dropped. So what a message survives depends on where it is cut
  (`HandshakeCuts`): the first message only a cut in or right behind the first length field
  (`FirstInPieces`; a cut inside the header is `CutInHeader`), the second and third a cut in or right
  behind their two length fields (`AnyCut`, `CutOnce`), and after such a cut 2 to 4 bytes into the second
  the client sends its header again, which the server refuses (`HeaderAgain`; a third wakeup in these
  bytes sets the number right again). A cut inside the Noise message always loses the handshake.
  `SurvivesCuts` is the exact condition for all three messages together.
- The client's inspection of the refusal status (ngx_nsoc_handler.c:590-592) is never reached: any
  negotiation data in the second message that is not empty is already an error of its size. The
  client of a refused handshake therefore fails, as `HandshakeLink.Link.Run` states.
- Handlers registered for the content phase take room in the phase table but get no entry.
- On the timeout of the preread phase the session is finalized with status 200, not moved on
  (`Phases.TimeoutEnds`).

## Model

| member | source | states |
|---|---|---|
| `SmoothWeights.AlwaysSolvent` | ngx_nsoc_upstream_round_robin.c:532-556 | along any run of picks at full weight from rest, the current weights sum to zero and each stays above minus the total weight W |
| `SmoothWeights.Ledger` | ngx_nsoc_upstream_round_robin.c:532-556 | after t picks a peer chosen k times has moved by exactly t*weight - k*W: the running weights are an exact account of who was picked |
| `SmoothWeights.BackToRest` | ngx_nsoc_upstream_round_robin.c:511-556 | W picks from rest bring every current weight back to zero |
| `SmoothWeights.Periodic` | ngx_nsoc_upstream_round_robin.c:511-556 | the states of a run from rest repeat with period W |
| `SmoothWeights.EveryWindowIsFair` | ngx_nsoc_upstream_round_robin.c:511-556 | every window of W consecutive picks, not only the first, chooses each peer exactly its weight |
| `SmoothWeights.NeverAhead` | ngx_nsoc_upstream_round_robin.c:511-556 | k*W < t*weight + W after any t picks |
| `SmoothWeights.NeverFarBehind` | ngx_nsoc_upstream_round_robin.c:511-556 | the lag of a peer is bounded by what the other peers together can lead |
| `Fairness.FairRunIsRun` | ngx_nsoc_upstream_round_robin.c:511-560 | every run of the real pick, with all peers eligible at full effective weight and anything but weights changing between picks, is a run of the weight arithmetic |
| `Fairness.ExactFairness` | ngx_nsoc_upstream_round_robin.c:511-560 | in a run of the balancer from rest every W consecutive picks choose each peer exactly `weight` times |
| `Fairness.RestIsPeriodic` | ngx_nsoc_upstream_round_robin.c:511-560 | and after W picks all current weights are zero again |
| `Fairness.NeverAhead` | ngx_nsoc_upstream_round_robin.c:511-560 | after any t picks a peer chosen k times satisfies k*W < t*weight + W |
| `Fairness.NeverFarBehind` | ngx_nsoc_upstream_round_robin.c:511-560 | and is behind its share by at most (n-1)*(W-1) in the same units |
| `FairSessions.InterleavedFairness` | ngx_nsoc_upstream_round_robin.c:403-560 | in every interleaving of sessions from the configured state, without retries and with all peers eligible at each connect, any W consecutive grants of the primary tier give each peer exactly `weight` times |
| `RoundRobin.BestIsBest` | ngx_nsoc_upstream_round_robin.c:511-547 | the walk settles on an eligible peer of greatest current weight, the first of its equals, and on none exactly when none is eligible |
| `RoundRobin.GetPeer` | ngx_nsoc_upstream_round_robin.c:494-563 | one pick: the chosen peer is the best one; with nobody eligible nothing changes at all |
| `RoundRobin.GetPeerKeepsSum` | ngx_nsoc_upstream_round_robin.c:532-556 | a pick conserves the sum of the current weights whichever peers are eligible |
| `RoundRobin.GetPeerKeepsBalance` | ngx_nsoc_upstream_round_robin.c:532-556 | a pick keeps the sum at zero and every effective weight between 0 and `weight` |
| `RoundRobin.ReleaseKeepsBalance` | ngx_nsoc_upstream_round_robin.c:590-624 | so does a release, whatever the failure penalty |
| `Balancer.GetRoundRobinPeer` | ngx_nsoc_upstream_round_robin.c:403-491 | across both tiers: a grant gives exactly one untried, unsaturated peer one more connection and touches no other tier; a refusal changes no peer |
| `Balancer.HereIsGranted` | ngx_nsoc_upstream_round_robin.c:422-458 | what one tier gives is one untried, unsaturated peer with one more connection, balance kept |
| `Balancer.RefusedIffNoneLeft` | ngx_nsoc_upstream_round_robin.c:403-491 | a get is refused exactly if no untried peer of the session's tier and no peer of a later tier is up, below its connections and not resting from failures; a grant is of such a peer, from the first tier that has one |
| `Balancer.FreeEffect` | ngx_nsoc_upstream_round_robin.c:565-631 | giving a peer back changes that peer only, takes one connection off it, keeps balance, and uses up exactly one try, or all of them for a single peer |
| `Balancer.TriesAre` | ngx_nsoc_proxy_module.c:388-394 | a try for every peer of both tiers, or exactly the limit if that is less |
| `PeerWeights.PickTells` | ngx_nsoc_upstream_round_robin.c:511-556 | at any effective weights: all who may be picked pay in theirs, the first of the richest takes the sum out and is chosen, and nobody is chosen exactly if nobody may be |
| `PeerWeights.PickRecovers` | ngx_nsoc_upstream_round_robin.c:532-560 | a pick raises the effective weight of all it may pick by one up to the weight, and starts a new period for the chosen one exactly if the last is over |
| `PeerWeights.PicksRecover` | ngx_nsoc_upstream_round_robin.c:532-538 | n picks it is eligible for raise the effective weight by n, up to the weight |
| `PeerWeights.FailuresTell` | ngx_nsoc_upstream_round_robin.c:590-624 | f failures with no pick in between: each is counted and dated, and the effective weight is max(0, w - f * (weight / max_fails)) |
| `PeerWeights.SuccessTells` | ngx_nsoc_upstream_round_robin.c:615-652 | success clears the failures exactly if the last check is newer than the last failure |
| `PeerWeights.SingleTells` | ngx_nsoc_upstream_round_robin.c:422-435 | a single peer is given and given back by its count alone |
| `Sessions.StepKeepsInv` | ngx_nsoc_proxy_module.c:499-573 | every atomic step of any session keeps the system invariant (accounting, balance, distinct attempts, budget) |
| `Sessions.AlwaysInv` | ngx_nsoc_proxy_module.c:1260-1346 | the invariant holds in every state of every interleaving of any number of sessions |
| `Sessions.EnabledIsAllowed` | ngx_nsoc_proxy_module.c:499-573 | in reachable states the references into the tiers are always good: only the control flow decides what can happen next |
| `Sessions.ConnectionAccounting` | ngx_nsoc_upstream_round_robin.c:422-454 | in every reachable state `conns` is exactly the number of sessions holding the peer and never exceeds a non-zero `max_conns` |
| `Sessions.NoUnderflow` | ngx_nsoc_upstream_round_robin.c:577-624 | whoever gives a peer back is counted on it, so `conns` never underflows |
| `Sessions.WeightConservation` | ngx_nsoc_upstream_round_robin.c:532-613 | in every reachable state the current weights of a tier sum to zero and each effective weight is between 0 and `weight` |
| `Sessions.RetrySafety` | ngx_nsoc_upstream_round_robin.c:511-554 | no session is given the same peer twice across both tiers, or more peers than its initial tries |
| `Sessions.RetryTerminates` | ngx_nsoc_proxy_module.c:1260-1310 | the connect and retry loop of a session takes at most 2*tries+1 steps in any run |
| `SessionRetries.AlwaysExact` | ngx_nsoc_upstream_round_robin.c:628-630 | in every reachable state the peers given and the tries left add up to the tries a session had, and it counts as tried only peers it was given |
| `SessionRetries.RetriesWhileItMay` | ngx_nsoc_proxy_module.c:1290-1309 | a failed session goes on exactly if it may and has been given fewer peers than it had tries |
| `SessionRetries.GivenWhileThereAre` | ngx_nsoc_proxy_module.c:528-545 | a connecting session is given a peer exactly if some peer from its tier on that can be given has not been given to it |
| `SessionRetries.NobodyIsSkipped` | ngx_nsoc_proxy_module.c:1260-1310 | in any interleaving, a session that gives up has been given every peer, of either tier, that could be given whenever it connected, or as many peers as its limit allows |
| `RoundRobinPeers.RrPeers.WalkPeers` | ngx_nsoc_upstream_round_robin.c:511-543 | the loop over the peers, bitmap test included, leaves the peers, the best and the total of the specification |
| `RoundRobinPeers.RrPeers.GetPeer` | ngx_nsoc_upstream_round_robin.c:494-563 | the in-place pick equals the specified one and sets exactly the bit of the chosen peer |
| `RoundRobinPeers.RrPeers.Free` | ngx_nsoc_upstream_round_robin.c:577-631 | the in-place release equals the specified one, single-peer case included |
| `RoundRobinPeers.RrPeers.MarkLive` | ngx_nsoc_upstream_round_robin.c:633-652 | a connect notification forgives past failures exactly when the last check passed |
| `RoundRobinPeers.IsTried` | ngx_nsoc_upstream_round_robin.c:512-517 | the bit test reads membership in the set of tried peers, in bounds for any number of peers |
| `RoundRobinPeers.MarkTried` | ngx_nsoc_upstream_round_robin.c:551-554 | setting the bit adds exactly that peer to the set |
| `RoundRobinPeers.ForgetTried` | ngx_nsoc_upstream_round_robin.c:466-473 | clearing the words of the next tier empties its set, in bounds |
| `RoundRobinPeers.PeerData.constructor` | ngx_nsoc_upstream_round_robin.c:256-282 | the bitmap is long enough for the larger tier, nothing is tried, and the tries are those of both tiers or the limit |
| `RoundRobinPeers.PeerData.SwitchTier` | ngx_nsoc_upstream_round_robin.c:460-473 | the session moves to the backup tier with nothing tried there |
| `RoundRobinPeers.PeerData.Get` | ngx_nsoc_upstream_round_robin.c:403-491 | the in-place get over shared tiers equals the specified get: peers, place, bitmap and result |
| `RoundRobinPeers.PeerData.Free` | ngx_nsoc_upstream_round_robin.c:565-631 | the in-place release equals the specified release and leaves the place in the tiers alone |
| `ProxyRetry.ProxySession.Connect` | ngx_nsoc_proxy_module.c:499-573 | the recursion terminates; it returns closed exactly if it holds no peer; exactly the held peer, if any, has gained a connection; each attempt but the last was declined and led on, and it closes only after a failure, after a decline with no try or no leave left, or with nobody left to ask; every peer given back has used up one try |
| `ProxyRetry.ProxySession.NextUpstream` | ngx_nsoc_proxy_module.c:1260-1310 | a failed peer is given back as failed before another is asked for; it goes on exactly if nothing is pending, another attempt is allowed and a try is left |
| `ProxyRetry.ProxySession.Finalize` | ngx_nsoc_proxy_module.c:1312-1360 | ending a session gives the peer back without a failure and leaves no connection counted for it |
| `Template.NameLenIsLongest` | ngx_nsoc_script.c:306-321 | a name is the longest run of name characters |
| `Template.LiteralLenIsLongest` | ngx_nsoc_script.c:344-354 | a literal is the longest run without a dollar |
| `Template.PiecesMean` | ngx_nsoc_script.c:251-371 | cutting a template into pieces and rendering them is direct substitution, and fails on the same templates |
| `TemplateGrammar.OtherByte` | ngx_nsoc_script.c:344-354 | a byte other than 36 stands for itself |
| `TemplateGrammar.BareName` | ngx_nsoc_script.c:300-340 | a dollar and a name, by its bytes: the longest run of A-Z, a-z, 0-9 and underscore that does not start with 1-9 is the variable |
| `TemplateGrammar.BracedName` | ngx_nsoc_script.c:291-335 | a dollar and any such name in braces is that variable |
| `TemplateGrammar.CaptureDigit` | ngx_nsoc_script.c:266-288 | a dollar and a digit 1-9 is that capture |
| `TemplateGrammar.Malformed` | ngx_nsoc_script.c:258-340 | which bytes behind a dollar make the template malformed |
| `TemplateGrammar.DollarMeans` | ngx_nsoc_script.c:258-340 | all other dollars have one of the three forms and mean it |
| `Template.ScanAgrees` | ngx_nsoc_script.c:115-124 | for every template that compiles, the scan counts exactly the variable pieces and the expansions, whatever byte lies behind the text |
| `Template.PlainText` | ngx_nsoc_script.c:126-143 | a text without a dollar stands for itself |
| `Variables.Session.GetIndexedVariable` | ngx_nsoc_variables.c:406-453 | the handler is called at most once, never for a cached entry; afterwards reading again would not call it; the depth counter is restored |
| `Variables.Session.GetFlushedVariable` | ngx_nsoc_variables.c:455-473 | a no-cacheable entry is asked for again, any other cached one is served as it is |
| `Variables.Session.Flush` | ngx_nsoc_script.c:34-52 | walking the list up to its terminator flushes exactly the listed entries |
| `Variables.FlushEffect` | ngx_nsoc_script.c:34-52 | an entry changes exactly when it is listed and marked no-cacheable |
| `Variables.FailureSticks` | ngx_nsoc_variables.c:437-452 | for every entry without a cached value: after which answers it stays cached over a flush, in particular after a failure if it carried no mark or the handler took the mark off |
| `Variables.AskersAre` | ngx_nsoc_variables.c:406-453 | who has to be asked: exactly the listed variables without a cached value, each once |
| `Variables.AnsweringMore` | ngx_nsoc_variables.c:422-445 | looking up one more variable calls at most its own handler, once, and stores its answer |
| `Script.FailOnce` | ngx_nsoc_script.c:54-100 | a failing input: a no-cacheable variable that fails on its first call is not asked again by the second evaluation |
| `Script.NeverAskedAgain` | ngx_nsoc_variables.c:437-452 | over any sequence of evaluations after a failure: the handler is never asked again exactly if the entry carried no mark or the handler took it off |
| `ScriptMeaning.StandsForAnswer` | ngx_nsoc_variables.c:400-452 | after an evaluation a variable stands for what its own handler answered in it, or for what it stood for if that was cached and unmarked |
| `ScriptMeaning.CaptureStandsFor` | ngx_nsoc_script.c:759-815 | capture n is the matched text between its two offsets |
| `ScriptMeaning.SameVariable` | ngx_nsoc_variables.c:360-382 | two names are the same variable exactly if they differ at most in case |
| `ScriptMeaning.AlignIsNext` | ngx_nsoc_script.c:547-622 | padding goes up to the next whole word |
| `ScriptCode.PaddingAgrees` | ngx_nsoc_script.c:547-622 | the size emitted for a copy instruction and the step its decoder takes agree for every length |
| `ScriptCode.StreamIsProgram` | ngx_nsoc_script.c:525-545 | a stream of instructions, read from its bytes, is decoded at exactly the offsets where they were emitted and ends at the terminator |
| `ScriptRun.LenStep` | ngx_nsoc_script.c:591-600 | the length code of an instruction returns the length of what the value code will copy; a variable without a cached value then holds what its handler answered |
| `ScriptRun.Fetch` | ngx_nsoc_script.c:602-622 | the value code copies what the instruction is worth and steps to the next one without calling a handler |
| `ScriptRun.RunLengths` | ngx_nsoc_script.c:71-80 | the first pass computes the length of the whole output; exactly the handlers of the variables without a cached value were called, once each and in order, and their entries hold the answers |
| `ScriptRun.RunValues` | ngx_nsoc_script.c:88-95 | the second pass fills a buffer of that length exactly and calls no handler |
| `ScriptCompile.IndexOfIsFirst` | ngx_nsoc_variables.c:372-382 | a variable resolves to the first index registered for its lower-cased name |
| `ScriptCompile.WorthIsMeaning` | ngx_nsoc_script.c:668-722 | what an instruction copies is what its piece of the template means in the environment of the cache and the captures |
| `ScriptCompile.FinalOpsRender` | ngx_nsoc_script.c:479-523 | the program with its optional terminating NUL outputs the rendered template followed by that NUL |
| `ScriptCompiler.Compiler.GetVariableIndex` | ngx_nsoc_variables.c:349-404 | the index of a name, registering it at the end when it is new; existing indexes do not move |
| `ScriptCompiler.Compiler.AddCopyCode` | ngx_nsoc_script.c:547-589 | both streams grow by the instruction that copies the text (with the NUL when it is the last one) |
| `ScriptCompiler.Compiler.AddVarCode` | ngx_nsoc_script.c:624-666 | both streams and the flush list grow by the variable |
| `ScriptCompiler.Compiler.AddCaptureCode` | ngx_nsoc_script.c:726-757 | both streams grow by the capture |
| `ScriptCompiler.Compiler.CompilePieces` | ngx_nsoc_script.c:261-362 | the compile loop fails exactly on malformed templates and otherwise emits the program of the pieces |
| `ScriptCompiler.Compiler.Done` | ngx_nsoc_script.c:479-523 | the terminator of both streams and the NUL of its own when the template does not end in a literal |
| `ScriptCompiler.Compiler.Compile` | ngx_nsoc_script.c:251-371 | compilation succeeds exactly on well-formed templates and yields both streams and the flush list of the final program |
| `Script.Scan` | ngx_nsoc_script.c:112-124 | the counts of the pre-scan |
| `Script.FinalFlushesCount` | ngx_nsoc_script.c:145-149 | exactly one flush entry is pushed per variable of the template |
| `Script.FinalOpsRead` | ngx_nsoc_script.c:624-640 | the program reads, and flushes, the variables of the template in their order |
| `Script.CompileComplexValue` | ngx_nsoc_script.c:102-200 | succeeds exactly on well-formed templates; the flush list with its -1 fills exactly the nv+1 slots reserved |
| `Script.Evaluate` | ngx_nsoc_script.c:54-100 | for every compiled template, session and handlers the value is the direct substitution of what the cache then holds, and the cache then holds the flushed old entries with exactly the missing ones filled by one handler call each, in the order of the template; every variable of it is settled |
| `Script.RunBoth` | ngx_nsoc_script.c:67-97 | the buffer sized by the first pass is filled exactly by the second, with one handler call per missing variable in all |
| `Framing.FeedConcat` | ngx_nsoc_handler.c:1019-1151 | where the input is cut does not matter to the reader |
| `Framing.FeedMessage` | ngx_nsoc_handler.c:1050-1132 | a length field and as many bytes are one message and leave the reader between frames |
| `Framing.FeedFrames` | ngx_nsoc_handler.c:1019-1151 | the wire image of any writes reads back as the same messages, each within the buffer |
| `Framing.OpenedSeals` | ngx_nsoc_handler.c:1094-1132 | opening sealed chunks under consecutive nonces gives the chunks back in order |
| `NoiseConnection.Write` | ngx_nsoc_handler.c:1337-1409 | in place: the frame of the payload, length and MAC included, fills exactly the buffer; refused exactly when the size does not fit, and then nothing is touched |
| `NoiseConnection.NoiseReader.ReadLength` | ngx_nsoc_handler.c:364-428 | the length field is read across any suspension, byte for byte as the one-byte reader reads it |
| `NoiseConnection.NoiseReader.ReadBody` | ngx_nsoc_handler.c:1081-1136 | the body is collected across any suspension, byte for byte as the one-byte reader collects it |
| `NoiseConnection.NoiseReader.Finish` | ngx_nsoc_handler.c:1089-1133 | a complete message is opened and, for every plaintext, delivered as the inner length says if that fits the room; the nonce advances with it |
| `NoiseConnection.PrefixDecides` | ngx_nsoc_handler.c:1110-1118 | for every plaintext, empty and one byte long included: what is delivered is determined by it exactly if its inner length is complete and is refused or fits it, or its first byte alone is enough to refuse |
| `NoiseConnection.OnlyTheLargestBuffer` | ngx_nsoc_handler.c:1072-1083 | the length of a body is not compared with the buffer: no peer can announce a body that overruns it exactly if buffer_size is at least 65517 |
| `NoiseConnection.TooLargeAndEmpty` | ngx_nsoc_handler.c:1072-1083 | a failing input: the field [255, 255] with any smaller buffer; and the field [0, 0] announces an empty body |
| `NoiseConnection.TwoBytesForAHundred` | ngx_nsoc_handler.c:1110-1118 | a failing input: two authentic bytes are delivered as a hundred bytes that were never sent |
| `NoiseConnection.TakenIsPayload` | ngx_nsoc_handler.c:1110-1132 | a plaintext whose inner length fits is delivered as what it says |
| `NoiseConnection.NoiseReader.Recv` | ngx_nsoc_handler.c:1019-1151 | one call consumes a prefix of what is on the wire, and either suspends in the state of the byte reader or delivers exactly one message |
| `NoiseTransfer.SendAll` | ngx_nsoc_handler.c:1337-1409 | the wire holds the frames of all chunks written, the nonce has advanced by their number |
| `NoiseTransfer.ReceiveOne` | ngx_nsoc_handler.c:1019-1151 | each call delivers the next chunk or suspends, losing nothing |
| `NoiseTransfer.ReceiveAll` | ngx_nsoc_handler.c:1019-1151 | frame round trip: on any delivery schedule, suspensions included, the reader gets exactly the chunks written, in order, and ends between frames with the nonce of the writer |
| `NoiseTransfer.SoundCipherExists` | ngx_nsoc_handler.c:1370-1409 | the assumptions on the cipher can be met |
| `ProxyBuffer.Buffer.ReadPlain` | ngx_nsoc_proxy_module.c:1077-1146 | a plain-side read never reaches into the room kept for the MAC and takes all it can |
| `ProxyBuffer.Buffer.Forward` | ngx_nsoc_proxy_module.c:1077-1146 | encryption in place always fits the allocation and the 2-byte length, for every buffer size up to 65517 |
| `ProxyBuffer.Buffer.Relay` | ngx_nsoc_proxy_module.c:264-273 | any sequence of plain reads goes out as frames of chunks that add up to the input and fit a peer with the same buffer size |
| `Handshake.PacketBlocks` | ngx_nsoc_handler.c:445-565 | a handshake message reads back as its negotiation data, its Noise message and what follows it |
| `HandshakeReads.ReadLength` | ngx_nsoc_handler.c:246-310 | a length field for every state and input: both bytes, the missing one, half of it, or nothing |
| `HandshakeReads.ReadData` | ngx_nsoc_handler.c:152-188 | for every buffer and input: as much as there is and fits goes behind what the buffer holds |
| `HandshakeReads.ReadBlock` | ngx_nsoc_handler.c:190-244 | for every state and input, whole or cut, what is read, kept and left |
| `HandshakeReads.WholeBlock` | ngx_nsoc_handler.c:190-244 | a block that is all there is taken exactly |
| `HandshakeCuts.CutOnce` | ngx_nsoc_handler.c:567-646 | second or third message, every single cut: the first part leaves the endpoint waiting, the rest completes the message exactly if the cut is at most 4 bytes in, and as if it had not been cut exactly if it is 1 byte in |
| `HandshakeCuts.AnyCut` | ngx_nsoc_handler.c:567-646 | the same message in any number of pieces, empty ones included: it is read exactly if the piece that goes beyond its length fields brings all of its data, and msg_num has moved once per wakeup since the negotiation length |
| `HandshakeCuts.ClientInPieces` | ngx_nsoc_handler.c:648-914 | the second message in any pieces: whether the client is done, and under which number it sends the third |
| `HandshakeCuts.SecondInPieces` | ngx_nsoc_handler.c:445-646 | the second message in any pieces: the bytes the client sends are the third message exactly if it was read and the wakeups since its negotiation length are not 2 modulo 3 |
| `HandshakeCuts.SecondCutOnce` | ngx_nsoc_handler.c:445-646 | the second message cut once: the client is done exactly if the cut is at most 4 bytes in, and sends the right third message exactly if it is 1 byte in |
| `HandshakeCuts.ServerInPieces` | ngx_nsoc_handler.c:648-914 | the third message in any pieces: whether the server is done |
| `HandshakeCuts.HeaderAgain` | ngx_nsoc_handler.c:461-475 | the client sends the right third message unless its wakeups since the negotiation length of the second are 2 modulo 3; then it sends its header again and the server, in whatever pieces, ends with an error |
| `HandshakeCuts.CutInHeader` | ngx_nsoc_handler.c:663-720 | first message, every cut inside the six header bytes: the server waits, waits again with everything there, and then fails whatever comes |
| `HandshakeCuts.LostForever` | ngx_nsoc_handler.c:579-616 | a server that has part of a header, or is past the header and not past the message, is never completed by anything that arrives |
| `HandshakeCuts.FirstInPieces` | ngx_nsoc_handler.c:663-907 | the first message in any pieces and anything behind it: the server answers exactly if the piece that goes beyond the length of the header brings all the rest, and refuses exactly if it brings the header |
| `HandshakeCuts.SurvivesCuts` | ngx_nsoc_handler.c:445-914 | a whole handshake in any pieces of its three messages: both sides are done if and only if the pieces meet these conditions |
| `Handshake.Endpoint.WriteMessage` | ngx_nsoc_handler.c:445-565 | for every msg_num the bytes sent and the next number; the refusal when it is due |
| `Handshake.Endpoint.ReadNegotiation` | ngx_nsoc_handler.c:575-618 | for every state and input: the expected negotiation size and the move of msg_num |
| `Handshake.Endpoint.ReadMessage` | ngx_nsoc_handler.c:567-646 | for every state and input, whole or cut, the result, what is kept and what is left to read |
| `Handshake.Endpoint.Begin` | ngx_nsoc_handler.c:663-764 | for every state and input, whole or cut: the server takes the header from the first message, waits for it, or answers a version it does not speak with the refusal |
| `Handshake.Endpoint.Turn` | ngx_nsoc_handler.c:767-907 | for every state and input: from what a turn leaves the loop goes on to the result it had before the turn, with the message the turn sent |
| `Handshake.Endpoint.Wake` | ngx_nsoc_handler.c:648-914 | for every state and input, whole or cut: the result of the wakeup, where the endpoint then stands, what it has read and exactly what it has sent; `handshaked` only at SPLIT after three messages |
| `HandshakeLink.MessageArrives` | ngx_nsoc_handler.c:567-646 | each message of one side is what the other side expects at that point, and reading it consumes exactly its bytes |
| `HandshakeLink.Link.WakeClient` | ngx_nsoc_handler.c:648-914 | a wakeup of the client keeps the joint invariant and advances the joint stage exactly when it is its turn |
| `HandshakeLink.Link.WakeServer` | ngx_nsoc_handler.c:648-914 | the same for the server, refusal included |
| `HandshakeLink.Link.Run` | ngx_nsoc_handler.c:445-914 | every schedule of wakeups and early transport data: both sides stay in step, the server is never done before message three was sent, each side has read exactly the messages meant for it and no byte behind them, a refused version is never handshaked |
| `HandshakeLink.InTurnFinishes` | ngx_nsoc_handler.c:648-914 | any schedule that wakes the sides in turn, with anything in between, completes the handshake (or its refusal) |
| `HandshakeVersion.VersionDecides` | ngx_nsoc_handler.c:663-720 | in bytes: a whole first message with a supported header is answered with message two exactly if the header starts with 0, 1, and otherwise with 0, 3, 0, 1, 255, 0, 0 and an error |
| `HandshakeVersion.Unsupported` | ngx_nsoc_handler.c:720-764 | a header of version 1 that the library does not support ends with an error and no answer |
| `HandshakeVersion.OtherHeaderSize` | ngx_nsoc_handler.c:190-244 | a header whose length is not six ends with an error and no answer |
| `HandshakeVersion.ClientUnsupported` | ngx_nsoc_handler.c:720-764 | a client whose own header is not supported says nothing |
| `HandshakeVersion.Rejected` | ngx_nsoc_handler.c:567-646 | a message the library rejects ends the handshake of whoever reads it |
| `Phases.AllDecline` | ngx_nsoc_core_module.c:174-181 | if every handler declines, every handler of every phase has its turn, last registered first, and content is reached |
| `Phases.AllAccept` | ngx_nsoc_core_module.c:172-176 | if every handler accepts, exactly the last registered handler of each phase has a turn, and content is reached |
| `PeerRest.FailedPeerRests` | ngx_nsoc_upstream_round_robin.c:523-526 | over every interleaving with a clock that does not go back: from a failure that reaches max_fails on, no session is given the peer until fail_timeout has passed |
| `PeerRest.OneTriesAlone` | ngx_nsoc_upstream_round_robin.c:558-560 | given out after that rest, the peer is given to nobody else for another fail_timeout unless its failures are cleared |
| `PeerRecovery.SuccessIsForgiveness` | ngx_nsoc_upstream_round_robin.c:615-652 | in any interleaving: a peer given out after its fail_timeout, with no failure since, has its failures cleared by the first session that reports success, and they stay cleared until it fails again |
| `Phases.Check` | ngx_nsoc_core_module.c:156-299 | the preread loop and the generic checker give the specified verdict for every sequence of reads and replies |
| `Phases.TimeoutEnds` | ngx_nsoc_core_module.c:213-223 | on the preread timeout the session ends with status 200, whatever has arrived |
| `PhaseCodes.GenericTurn` | ngx_nsoc_core_module.c:157-195 | what each reply of a handler does to the run: skip the phase, next handler, same handler again, stop with 500 or with the status |
| `PhaseCodes.WaitsForIt` | ngx_nsoc_core_module.c:183-185 | a handler that replies again or done n times has the first n turns to itself and the next one too |
| `PhaseCodes.PrereadDecides` | ngx_nsoc_core_module.c:223-299 | over every sequence of reads: end of stream and read error stop with 200, an event that cannot be armed with 500, a full buffer with 400, nothing to read waits for the same handler, any other reply decides |
| `PhaseCodes.SomeReadDecides` | ngx_nsoc_core_module.c:223-268 | some read always decides, or there is nothing left to read |
| `PhaseCodes.PrereadAtOnce` | ngx_nsoc_core_module.c:213-240 | and without any read: the timeout, a buffer already full, or the first reply |
| `Phases.TableMeansPhases` | ngx_nsoc_core_module.c:135-194 | from any position the jump table visits the same handlers, with the same verdicts and the same end, as the nested phases |
| `Phases.FlatJumps` | ngx_nsoc.c:327-356 | every jump of the table goes forward and stays inside it |
| `Phases.TableOfPhases` | ngx_nsoc.c:303-359 | the table built for any handlers per phase runs as the phases mean |
| `Phases.CountEntries` | ngx_nsoc.c:312-316 | the allocation counts one entry per handler and one for content |
| `Phases.PlacePhase` | ngx_nsoc.c:348-355 | the entries of a phase, last registered handler first, all jumping behind the phase |
| `Phases.InitPhaseHandlers` | ngx_nsoc.c:303-359 | the array holds exactly the table, followed by a cell without a checker |
| `Phases.Session.RunPhases` | ngx_nsoc_core_module.c:135-154 | one wakeup looks at no more checkers than the table has, and loses nothing of the run |
| `Phases.Session.RunAll` | ngx_nsoc_core_module.c:135-299 | wakeup after wakeup the session does the whole run |
| `Phases.Serve` | ngx_nsoc.c:303-359 | end to end: for any handlers, replies and suspensions the session visits what the nested phases visit |
| `Phases.HowItEnds` | ngx_nsoc_core_module.c:156-194 | a run is stopped exactly when some turn stops it, waits only while answers are lacking, and takes at most one turn per handler besides the suspended ones |
| `Listeners.CoreListen` | ngx_nsoc_core_module.c:834-851 | a directive is refused exactly when another has the same type, address and port; otherwise the directives stay distinct |
| `Listeners.SortOrders` | ngx_nsoc.c:626-657 | the sort keeps all directives and puts explicit binds first and the wildcard last |
| `Listeners.AddPorts` | ngx_nsoc.c:361-412 | directives are grouped by family, type and port, one group per key, none lost |
| `Listeners.SocketsCover` | ngx_nsoc.c:448-524 | the sockets of a group list each directive of the group once |
| `Listeners.OpenSockets` | ngx_nsoc.c:435-524 | the loop with its moving cursor opens exactly the specified sockets |
| `Listeners.OptimizeServers` | ngx_nsoc.c:414-528 | all groups together: every directive is in exactly one socket, only wildcard sockets serve several, and a directive for an address is alone exactly if it says bind or its port has no wildcard |
| `Listeners.Configure` | ngx_nsoc.c:250-258 | from the directives to the sockets |
| `Listeners.FindServer` | ngx_nsoc_handler.c:1464-1536 | the linear search, whose last entry needs no comparison |
| `Listeners.OneSocket` | ngx_nsoc.c:448-524 | no directive is covered by two sockets |
| `Listeners.SocketFor` | ngx_nsoc.c:448-524 | every directive is covered by a socket |
| `Listeners.ExactMatch` | ngx_nsoc_handler.c:1464-1536 | a connection to an address with a directive of its own gets that configuration, whichever socket accepts it |
| `Listeners.WildcardMatch` | ngx_nsoc_handler.c:1464-1536 | otherwise it gets that of the wildcard of the port |
| `Listeners.NoMatch` | ngx_nsoc_handler.c:1464-1536 | and with neither no socket accepts it |
| `WriteFilter.UnsentContent` | ngx_nsoc_write_filter_module.c:209-225 | what is left after n bytes were taken is exactly the content from byte n on |
| `WriteFilter.SurveyFinds` | ngx_nsoc_write_filter_module.c:83-178 | the passes find the total size, and a chain without bytes is marked |
| `WriteFilter.Direction.Write` | ngx_nsoc_write_filter_module.c:71-245 | a call without error: the connection has been passed exactly the bytes it took of the saved chain and the new one, the rest is saved, the flag is set exactly when something is saved, OK means nothing is saved |
| `WriteFilter.Filter.Write` | ngx_nsoc_write_filter_module.c:71-77 | a call moves the queue of its direction by what was submitted and what was taken, and touches the other not at all |
| `WriteFilter.Filter.Run` | ngx_nsoc_write_filter_module.c:71-245 | any run of calls without error is a queue of bytes in each direction: the bytes passed on are the first so many submitted as the connection took, the rest is saved, and the flag tells whether there is a rest |
| `GoStream.ChunkedJoins` | example/noise_http_client/main.go:80-118 | cutting a write into chunks loses nothing, and every chunk fits a frame |
| `GoStream.ChunksAreFull` | example/noise_http_client/main.go:80-118 | all chunks of a write but the last are full |
| `GoStream.Sender.WriteChunk` | example/noise_http_client/main.go:94-114 | the branch for a ciphertext that is too large is never taken |
| `GoStream.Sender.Write` | example/noise_http_client/main.go:80-118 | a write always succeeds in full and puts the frames of its chunks on the wire |
| `GoStream.Receiver.ReadPayloadFrame` | example/noise_http_client/main.go:151-181 | the next chunk, while there is one |
| `GoStream.PayloadOf` | example/noise_http_client/main.go:169-180 | of any authentic plaintext: the announced payload, exactly if the length is there and fits |
| `GoStream.Receiver.Read` | example/noise_http_client/main.go:58-77 | as many bytes as asked for, or as the frame at hand still has, next in the stream; an error exactly at its end |
| `GoStream.Converse` | example/noise_http_client/main.go:58-118 | any writes read back with any read sizes give the same byte stream |
| `GoStream.ToModule` | example/noise_http_client/main.go:80-118 | the module with its default buffer size reads the same stream from the same bytes |
| `WebSocket.BigEndianRoundTrip` | example/noise_http_client/main.go:545-555 | big-endian length fields round trip |
| `WebSocket.LengthRoundTrip` | example/noise_http_client/main.go:541-600 | every length below 2^64 reads back from its field |
| `WebSocket.LengthIsShortest` | example/noise_http_client/main.go:541-555 | no field that reads as the same length is shorter |
| `WebSocket.MaskTwice` | example/noise_http_client/main.go:563-566 | masking with the same key twice restores the payload |
| `WebSocket.FrameRoundTrip` | example/noise_http_client/main.go:537-630 | a written frame reads back as it was, followed by the rest of the input; over 2^20 bytes it is refused |
| `WebSocket.FramesRoundTrip` | example/noise_http_client/main.go:537-630 | any sequence of frames, each with its own key, reads back in order to the last byte |
| `WebSocket.BareFrame` | example/noise_http_client/main.go:573-630 | a frame without a mask, as a server sends it: payload and rest, or refused for its size or as a fragment |
| `WebSocket.MostSignificantFirst` | example/noise_http_client/main.go:583-600 | the first byte of a length is its most significant |
| `WebSocket.MaskFlips` | example/noise_http_client/main.go:563-566 | masking flips exactly the bits that are set in the key |
| `WebSocket.MaskInPlace` | example/noise_http_client/main.go:619-623 | the masking loop, in place |
| `WebSocket.ReadFrame` | example/noise_http_client/main.go:573-630 | the reader, error cases included |
| `WebSocket.WriteFrame` | example/noise_http_client/main.go:537-570 | the writer |
| `Base64Keys.RoundTrip` | ngx_noise_protocol.c:102-166 | for every key up to 2048 bytes, decoding its RFC 4648 text restores it |
| `Base64Standard.Alphabet` | ngx_noise_protocol.c:118-127 | encoder and decoder use the alphabet of RFC 4648 |
| `Base64Standard.OtherSigns` | ngx_noise_protocol.c:118-133 | what is padding, white space or refused |
| `Base64Standard.ThreeBytes` | ngx_noise_protocol.c:134-144 | three bytes and four digits are the same 24 bits |
| `Base64Standard.LastBytes` | ngx_noise_protocol.c:146-158 | the bits of the last one or two bytes |
| `Base64Standard.Padded` | ngx_noise_protocol.c:128-158 | padding fills the text up to whole groups |
| `Base64Text.GatherGroup` | ngx_noise_protocol.c:134-144 | four digits give their three bytes whatever the 32-bit group held before |
| `Base64Text.DecodeIs` | ngx_noise_protocol.c:117-165 | the decoder on every text: the bytes its digits stand for, exactly if they are as many as wanted and no character is refused |
| `Base64Keys.SpacesRepeat` | ngx_noise_protocol.c:130-134 | decoding any text is decoding it with every white space replaced by the letter before it |
| `Base64Keys.WhiteSpace` | ngx_noise_protocol.c:117-165 | the text of a key with white space inserted is decoded to the key exactly if none stands before the padding, or there is no padding, one white space, and only repetitions of the letter before it behind it |
| `Base64Keys.BrokenLine` | ngx_noise_protocol.c:130-134 | a failing input: a line break inside a key of three bytes loads another key |
| `Base64Keys.DigitsOfValue` | ngx_noise_protocol.c:134-144 | whole groups of digits are recovered from the bytes they stand for |
| `Base64.Decode` | ngx_noise_protocol.c:102-166 | success means exactly `len` bytes |
| `Base64.LoadPublicKey` | ngx_noise_protocol.c:102-166 | the in-place loader agrees with the decoder on every text, and writes nothing from `len` on |

## Left out

- Peers are records in the list of their tier, updated through the tier's object; the linked list of
  peer structures and pointers into it are not modelled, nor is the overflow of weights at 64 bits.
- Building the peer lists from the configuration (`ngx_nsoc_upstream_init_round_robin`) and from a
  resolved name, the DNS resolver, timers, logging, statistics and memory pools; every allocation
  succeeds.
- The locks: one get, release or notification is one atomic step. A get that goes on to the backup tier is
  one step too, while the source unlocks the primary tier before it locks the backup
  (ngx_nsoc_upstream_round_robin.c:475-477); other sessions between the two are not modelled.
- Template codes for file names (`full_name`, `conf_prefix`, `root_prefix`), `skip`, regular
  expressions, maps, prefix variables; a handler that evaluates other variables while it runs.
- Memory of the instruction streams is a sequence of bytes in which a word is written whole; padding
  bytes are zero, words are natural numbers below 2^64.
- Variable handlers that format values (addresses, times, counters): many easy branches.
- NoiseConnection.Write: the whole frame goes out in the call; resuming a partial send
  (ngx_nsoc_handler.c:1415-1436) is not modelled, because the buffer is not kept where a later call
  looks for it.
- Sending chains of several links over Noise (ngx_nsoc_handler.c:1243-1323).
- NoiseConnection.NoiseReader.Recv: bodies larger than the buffer, which the code would write past its
  end, are excluded by `Ready` (see `NoiseConnection.OnlyTheLargestBuffer` for when they can occur), and so
  are bodies of zero bytes, for which the code asks the socket for nothing. A connection that closes in the
  middle of a frame is not modelled, only data and suspensions.
- NoiseConnection.NoiseReader.ReadBody: the same holds of the body being read.
- ProxyBuffer.Buffer.Forward: stated for a drained output queue; a read on the Noise side while earlier
  output of the same buffer is still busy is not modelled. Rate limits and byte counters are left out.
- HandshakeLink.Link.Run: each handshake message becomes readable as a whole, with any number of empty
  wakeups before it, and is sent as a whole; messages in pieces are `HandshakeCuts`, one side at a time.
- HandshakeCuts.AnyCut: stated for the bytes of the message alone; data behind the third message that
  arrives after a cut inside it would be read as the rest of it.
- Falling back to another protocol (`NGX_NSOC_2MSG_FB`) is never requested by the code. A Noise message of
  length zero, for which the code reads an unset buffer, is an error here.
- The configuration that the handshake carries beyond the version (cipher, hash and pattern numbers) is
  one predicate: the header is supported or not.
- Listeners: the kernel's choice of a socket is modelled as exact address before wildcard; socket
  options, parsing of the directives and the address texts are left out.
- Phases.Check: prereads are modelled by their sizes and replies, not by the bytes read. The work of the
  content handler and the log phase are left out.
- WriteFilter: buffers are values; file buffers, the limit parameter and what `send_chain` does inside
  are left out. Nothing is claimed after a call that returned an error.
- Cryptography, the Go client's HTTP and key handling, the Go server, build and deployment files.
