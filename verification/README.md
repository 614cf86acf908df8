# Verified models of the OpenSSH core

This project models six parts of the repository in Dafny and proves what they are there for:

1. arithmetic modulo 2^255-19 on radix-256 limbs and the Ed25519 point operations on top of it
   (`fe25519.c`, `ge25519.c`, the digit interleaving of `sc25519.c`);
2. SSH channel flow control between two ends, and the mux proxy that carries many clients'
   channels over one connection (`channels.c`, `nchan.c`);
3. the server's user authentication state machine (`auth2.c`, `auth2-pubkey.c`,
   `auth2-chall.c`);
4. the CRC compensation attack detector with its reused hash table (`deattack.c`);
5. the growable bit set (`bitmap.c`) and the argument vector printer and parser
   (`auth2-pubkey.c`);
6. ChaCha20, the chacha20-poly1305 packet cipher and SHA-512 (`chacha.c`,
   `cipher-chachapoly.c`, `blocks.c`, `hash.c`).

Code that updates arrays and structures in place is a class or a method with loops; each is
proved against a function on values, and the theorems are about those functions and about
whole runs. `dafny verify dfyconfig.toml` checks everything.

## Files

| files | contents |
|---|---|
| `Words`, `ModArith`, `Bits`, `Options` | machine words, congruences, bit operations on naturals |
| `Fe25519`, `Fe25519Canonical`, `Fe25519Powers` | field elements: carries and products, unique representatives, exponent chains |
| `Ge25519`, `Ge25519Group`, `Ge25519Scalar` | point formulas, their meaning in the group, double-scalar multiplication |
| `Channels`, `ChannelNet`, `ChannelLive`, `ChannelDelivery` | one channel end in place; two ends and two message queues; what a poll sends and what gentle steps keep; that everything can be delivered and the channel freed |
| `MuxProxy`, `MuxNet`, `MuxRouting` | the channel table and the proxy; clients, master and server over runs; the routing proof |
| `AuthMethods`, `UserAuth`, `UserAuthProofs`, `UserAuthRuns`, `UserAuthPolicy`, `UserAuthComplete`, `UserAuthServer` | list strings, the state machine, its invariant, safety of every run, what counts as a success, completeness and counting, the context updated in place |
| `Deattack`, `Argv`, `Bitmap` | detector, argument vectors, bit set |
| `Sha512Spec`, `Sha512Bits`, `Sha512` | FIPS 180-4, what fixes its definitions, and the repository's implementation |
| `ChaCha`, `ChaChaVectors`, `ChaChaLoop`, `ChachaPoly` | keystream, what fixes the block function, block loop, packet cipher |

## Where the code does less than its comments say

- `fe25519_freeze`, `fe25519_pack` and the comparisons are right exactly on values below
  2^255 (`Fe25519Canonical.FrozenIsResidueIff`, `ComparisonExactIff`), and `fe25519_mul` can
  return 2^255 + 14 (`MulCanExceedTop`), so the comment at fe25519.c:107 asks for more than a
  product guarantees.
- With a receive window of one byte and a non-zero maximum packet size no window adjust is ever
  sent, so after one byte the sender is starved; besides a window of zero that is the only such
  setting (`ChannelNet.TinyWindowNeverAdjusts`, `TinyWindowStarves`, `NoCreditDeadlock`).
- `split_argv` after `assemble_argv` drops empty arguments, and only those
  (`Argv.SplitAssembled`, `RoundTripIff`).
- Bit 2^24 can be set in a bitmap, but the string written for it cannot be read back
  (`Bitmap.ReadableIff`).
- The retry counter exceeds `MaxAuthTries` if that is 0 and any request gets as far as being
  tried, or if it is negative (`UserAuthRuns.FailuresBoundedIff`).
- The fatal error "method not in AuthenticationMethods" is reached exactly by a request that
  authenticates with a method by which some list starts with a submethod, as in `publickey:x`,
  and no list starts bare (`UserAuthRuns.RequestNotInListsIff`, `NotInListsIff`,
  `NotInListsReached`).
- A wrong keyboard-interactive answer is not counted as a failure if a further device starts, and a
  new request starts over with all devices. Every run has at most `MaxAuthTries` wrong answers
  exactly if keyboard-interactive authentication is off or at no point two of its devices are
  admitted; without lists that means at most one device (`UserAuthComplete.WrongReplyCounts`,
  `RoundsUncounted`, `WrongAnswersBoundedIff`, `OneDeviceIff`).
- The mux proxy books CLOSE but not OPEN_FAILURE, so the slot of a channel that the server refused
  stays in use while its client is connected (`MuxRouting.RefusedKeepsSlot`).
- A channel number of 2^32-1 given out by a server is taken by the mux proxy for "no number"
  (`MuxRouting.FoundIff`, `UnsetMisbooks`).

## Hypotheses

- `Fe25519Powers.InvertIsInverse` takes Fermat's little theorem for the given element as a
  precondition.
- `Ge25519Group.Lawful` collects what the group lemmas take for granted: non-zero field elements
  have inverses, and the Edwards addition law on the curve is complete, closed and that of an
  abelian group.
- `ChachaPoly` takes Poly1305 as any function to sixteen bytes.
- Verdicts of authentication back ends, read and write counts, failing allocations and `check_crc`
  are inputs.
- Authentication back ends refuse users that do not exist: a verdict counts as `ok && valid`.
- Device names are distinct and not empty where `UserAuthComplete.WrongAnswersBoundedIff` says so.
- `MuxNet` assumes that mux clients stay connected, that clients and server follow the protocol,
  that the server gives out a channel number again only after CLOSE has gone both ways and never
  the number 2^32-1, that it offers forwarded connections only for addresses that mux clients
  asked for, and that it has no old bugs about listening addresses.

## Model

| member | source | states |
|---|---|---|
| Fe25519.Times19 | fe25519.c:33-36 | the shifts and additions multiply by 19 without wrap-around on inputs up to 2^27 |
| Fe25519.Times38 | fe25519.c:38-41 | by 38, without wrap-around on inputs up to 2^26 |
| Fe25519.ReduceMul | fe25519.c:63-81 | two carry rounds keep the residue, never wrap, and leave limbs at most 255 and the top limb at most 128 |
| Fe25519.ReduceAddSub | fe25519.c:43-61 | four carry rounds keep the residue, never wrap, and leave a value below 2^255 |
| Fe25519.NextPassBound | fe25519.c:43-81 | how far one more carry round brings the value down |
| Fe25519.Add | fe25519.c:178-183 | the result is below 2^255 and congruent to the sum, also when result and operands are the same array |
| Fe25519.Sub | fe25519.c:185-194 | adding 2p first prevents underflow; the result is below 2^255 and congruent to the difference |
| Fe25519.Neg | fe25519.c:169-176 | the result is congruent to the negated value |
| Fe25519.ColumnBound | fe25519.c:196-205 | no column of the 63-word product exceeds a 32-bit word |
| Fe25519.ColumnsValue | fe25519.c:196-205 | the columns add up to the product of the two values |
| Fe25519.Schoolbook | fe25519.c:196-205 | the double loop computes exactly those columns |
| Fe25519.FoldColumns | fe25519.c:206-210 | adds 38 times the upper columns to the lower ones without wrap-around |
| Fe25519.FoldHighColumns | fe25519.c:206-208 | that subtracts a multiple of p from the value |
| Fe25519.Mul | fe25519.c:196-211 | limbs at most 255, top limb at most 128, value congruent to the product, for all operands with limbs at most 255 |
| Fe25519Canonical.Equal | fe25519.c:16-22 | decides equality of 16-bit inputs by subtraction and shift |
| Fe25519Canonical.Ge | fe25519.c:24-31 | decides greater-or-equal of 16-bit inputs |
| Fe25519Canonical.Freeze | fe25519.c:84-98 | subtracts p if the value is at least p and below 2^255 and changes nothing otherwise, without a branch and without wrap-around |
| Fe25519Canonical.FrozenIsResidueIff | fe25519.c:84-98 | freezing gives the residue below p exactly for values below 2^255 |
| Fe25519Canonical.Unpack | fe25519.c:100-105 | the value of 32 bytes without their top bit |
| Fe25519Canonical.Pack | fe25519.c:108-115 | the frozen limbs as bytes |
| Fe25519Canonical.PackThenUnpack | fe25519.c:100-115 | packing a value below 2^255 and unpacking it gives its residue below p |
| Fe25519Canonical.IsEqVartime | fe25519.c:129-139 | 1 exactly if the frozen values agree, so on values below 2^255 exactly if they are congruent |
| Fe25519Canonical.FrozenDecides | fe25519.c:129-139 | comparing frozen values decides congruence where freezing is right |
| Fe25519Canonical.ComparisonExactIff | fe25519.c:129-139 | against all operands below 2^255 the comparison is right exactly if the other operand is below 2^255 too |
| Fe25519Canonical.MulCanExceedTop | fe25519.c:63-81 | two elements whose product is left at 2^255 + 14 |
| Fe25519Powers.Invert | fe25519.c:218-283 | x to the power 2^255 - 21, through all squaring loops |
| Fe25519Powers.Pow2523 | fe25519.c:285-337 | x to the power 2^252 - 3 |
| Fe25519Powers.InvertIsInverse | fe25519.c:218-283 | given Fermat's theorem for x, x times the inverse is 1 |
| Ge25519.P1P1ToP2 | ge25519.c:70-75 | projective coordinates of a completed point; T is left as it was |
| Ge25519.P1P1ToP3 | ge25519.c:77-81 | the same with X*Y = Z*T restored |
| Ge25519.AddP1P1 | ge25519.c:106-124 | numerators and denominators of the addition law, from points whose T is fresh |
| Ge25519.DblP1P1 | ge25519.c:127-143 | those of the doubling law, whatever T is |
| Ge25519.Ec2dValue | ge25519.c:24-26 | the limbs of the constant hold 2d |
| Ge25519.DIsTheQuotient | ge25519.c:15-23 | d is -121665/121666 |
| Ge25519Group.AddIs | ge25519.c:106-124 | the result stands for the sum of the two group elements, with non-zero denominators |
| Ge25519Group.DoubleIs | ge25519.c:127-143 | the result stands for the doubled group element |
| Ge25519Group.ToP2Is | ge25519.c:70-81 | converting out of completed coordinates keeps the group element |
| Ge25519Group.MixAdd2 | ge25519.c:83-104 | adds an affine point and leaves T fresh |
| Ge25519Scalar.Interleave | sc25519.c:295-308 | entry j is the j-th base-4 digit of one scalar plus four times that of the other |
| Ge25519Scalar.DigitsValue | sc25519.c:295-308 | the digits make up the scalar without the two top bits of its last limb |
| Ge25519Scalar.Precompute | ge25519.c:269-285 | entry i of the table is (i mod 4) times the first point plus (i div 4) times the second |
| Ge25519Scalar.DoubleScalarMult | ge25519.c:262-304 | the result is s1 times p1 plus s2 times p2 in the group, and T is fresh whenever it is read |
| Channels.Channel.HandleRfd | channels.c:1728-1773 | bytes read are appended to the input buffer; end of file starts draining |
| Channels.Channel.HandleWfd | channels.c:1777-1866 | bytes written leave the output buffer and are counted as consumed; a failure closes the output |
| Channels.Channel.WriteEfd | channels.c:1869-1918 | the same for extended data that is written |
| Channels.Channel.ReadEfd | channels.c:1869-1918 | the same for extended data that is read |
| Channels.Channel.CheckWindow | channels.c:1921-1940 | sends the consumed bytes as credit exactly if an adjust is due |
| Channels.Channel.OutputPoll | channels.c:2301-2424 | sends as much data and extended data as window and packet size allow, and EOF when drained |
| Channels.Channel.Reap | nchan.c:442-484 | CLOSE is sent once both directions are done; the channel is freed after CLOSE both ways |
| Channels.Channel.InputData | channels.c:2709-2768 | charges the window and appends, or drops what the window does not cover |
| Channels.Channel.InputExtendedData | channels.c:2772-2818 | the same for extended data, which is ignored without a reader |
| Channels.Channel.InputWindowAdjust | channels.c:3020-3047 | raises the remote window, fatal on overflow |
| Channels.Channel.InputEof | channels.c:2822-2844 | the output drains and then closes; a channel with `force_drain` starts draining its input too |
| Channels.Channel.IbufEmpty | nchan.c:152-176 | drained input sends EOF unless CLOSE was sent, and closes |
| Channels.Channel.InputClose | nchan.c:278-313 | the output drains; open input closes, draining input sends its EOF and closes |
| ChannelNet.StepKeepsInv | channels.c:1921-1940 | every local step and every delivery keeps credit, budget, streams, order and half-close of both directions |
| ChannelNet.RunKeepsInv | channels.c:2301-2424 | the same over every run of the two ends |
| ChannelNet.NoProtocolError | channels.c:2709-2768 | between conforming ends no delivery drops data as too much, disconnects or overflows a window |
| ChannelNet.CreditBound | channels.c:3020-3047 | remote window plus bytes and credit in flight never exceed the receiver's window, and equal it if nothing was ignored |
| ChannelNet.StreamDelivered | channels.c:1777-1866 | bytes written are a prefix of those read at the other end; while the output is open or nothing was thrown away, bytes written, buffered and in flight, and bytes still at the sender, are in this order the bytes read there |
| ChannelNet.ExtStreamDelivered | channels.c:1869-1918 | the same for extended data |
| ChannelNet.NoCreditDeadlock | channels.c:1921-1940 | a sender at window zero with a drained receiver gets an adjust exactly if the window is at least 2, or 1 with packet size 0 |
| ChannelNet.TinyWindowStarves | channels.c:1921-1940 | the run of four steps after which window 1 has starved the sender |
| ChannelNet.TinyWindowNeverAdjusts | channels.c:1921-1940 | with window 1 and a non-zero packet size no adjust is sent, in any run |
| ChannelNet.OrderedMeans | channels.c:2301-2424 | in a queue nothing follows CLOSE, and neither data nor a second EOF follows EOF |
| ChannelNet.FreedAfterBothCloses | nchan.c:442-484 | an end is freed only after CLOSE was sent and received, and then nothing more comes for it |
| ChannelLive.PollSends | channels.c:2301-2424 | a poll of a live end sends the longest prefix of the input that window and packet size let through, then the longest prefix of the extended data that the rest of the window lets through |
| ChannelLive.RunSane | nchan.c:278-351 | in every run an end sends EOW and CLOSE only after closing its output, and until then its peer closes the input only with EOF |
| ChannelLive.EowTells | nchan.c:315-351 | in every run an end reads on after its peer has thrown output away only while EOW is under way, if EOW is sent at all |
| ChannelDelivery.Drains | channels.c:1921-1940 | with output open, no credit lost, a window of at least 2 and a packet size other than 0, some moves without a new read lead to a state in which all is sent, taken and written |
| ChannelDelivery.AllDelivered | channels.c:1728-1940 | from every reachable state like that, some continuation ends with everything written at one end that was read at the other, extended data included |
| ChannelDelivery.Finishes | nchan.c:442-484 | with both inputs closed, some moves deliver what is in flight, close both outputs and free both ends |
| ChannelDelivery.BothFreed | nchan.c:442-484 | from every reachable state in which each end has closed its input or can send to the other, some continuation frees both ends, with everything delivered that could be |
| MuxProxy.Place | channels.c:305-381 | the first free slot, else ten more, fatal only beyond 10000; all other slots keep their contents |
| MuxProxy.ByRemoteId | channels.c:214-225 | the first channel with that remote id, none exactly if there is none |
| MuxProxy.ChannelTable.New | channels.c:305-381 | the loop finds that slot and puts the channel there |
| MuxProxy.ChannelTable.Find | channels.c:214-225 | the loop finds that channel |
| MuxProxy.ListenClient | channels.c:4117-4135 | the client that asked for the address first, none exactly if none did |
| MuxProxy.ListenStable | channels.c:2573-2583 | addresses asked for later take none away from a client |
| MuxProxy.ListensIff | channels.c:3682-3702 | an address asked for as "" or "*" comes back as "", every other one as it is; ports agree |
| MuxProxy.ChannelTable.Listener | channels.c:4117-4135 | the loop finds that client |
| MuxProxy.ChannelTable.ProxyDownstream | channels.c:2467-2618 | a client's OPEN or confirmation gets a slot number in place of the client's; a forwarding request is refused or its address booked for the client; a CLOSE is booked on the channel with that remote id |
| MuxProxy.ChannelTable.ProxyUpstream | channels.c:2627-2703 | a server message of one of the ten channel kinds goes to the slot's client under its own number; CONFIRMATION and CLOSE are booked |
| MuxRouting.StepOk | channels.c:2467-2703 | whatever clients, server and master do next, table, queue and log stay consistent |
| MuxRouting.Routing | channels.c:2627-2703 | in every run the n-th message of the server reached the client of its channel, under that client's number, payload unchanged, and an offered connection the client that first asked for its address |
| MuxRouting.Forwarding | channels.c:2467-2618 | in every run the n-th message of a client went on to the server as the n-th, kind, channel type and payload unchanged; only the sender's number of an OPEN or CONFIRMATION is replaced, by the slot of that client's channel of that number; only global requests other than a forwarding of a proper port are refused |
| MuxRouting.SlotKept | channels.c:2687-2700 | until CLOSE has passed both ways a channel keeps its slot, and no other channel has it |
| MuxRouting.SlotFreed | channels.c:2584-2594 | every proxy slot in use belongs to a channel for which CLOSE has not passed both ways |
| MuxRouting.RefusedKeepsSlot | channels.c:2687-2700 | the slot of a channel that the server refused is in use after every continuation of the run |
| MuxRouting.CloseFindsOwn | channels.c:2584-2594 | a client's CLOSE is booked on its own channel |
| MuxRouting.FoundIff | channels.c:214-225 | with distinct ids, a channel is found by its number exactly if that is not 2^32-1 or no earlier channel lacks a number |
| MuxRouting.UnsetMisbooks | channels.c:2584-2594 | a table in which the CLOSE of a channel numbered 2^32-1 is booked on another one |
| AuthMethods.StartsWithIsHeadMatch | auth2.c:543-567 | the string comparison is a match of the first entry of the comma-split list |
| AuthMethods.RemoveIsTail | auth2.c:575-592 | the string edit drops that entry, exactly if it matches with the submethod |
| AuthMethods.UpdateFromFacts | auth2.c:601-623 | each list is shortened if it starts with the method and is looked at, else kept |
| AuthMethods.UpdateComplete | auth2.c:601-623 | a completed update removed the only entry of some list |
| UserAuthProofs.EmbedsPicks | auth2.c:601-623 | ticking entries off in order means increasing positions of successes |
| UserAuthProofs.EmbedsCounts | auth2.c:601-623 | a list ticked off has no more publickey entries than there were publickey successes |
| UserAuthProofs.ValidListsAre | auth2.c:512-540 | the lists kept are those whose methods are known and enabled |
| UserAuthProofs.PickChooses | auth2-chall.c:168-184 | a pass over the devices picks only a device not used before and allowed |
| UserAuthProofs.NextChooses | auth2-chall.c:158-191 | so does the whole search over the device string |
| UserAuthProofs.FinishOk | auth2.c:296-384 | finishing an attempt keeps the invariant, if a success comes from a valid user and is not postponed |
| UserAuthProofs.StepOk | auth2.c:213-384 | every message keeps the invariant, whatever the back ends answer |
| UserAuthRuns.WinsReported | auth2.c:296-384 | the successes that counted were reported by messages of the run, in order |
| UserAuthPolicy.RequestDecided | auth2.c:213-384 | a request is a success exactly if it is in place, the user exists, the method is known, switched on and asked for by a list, the back end is convinced and PermitRootLogin allows it; otherwise it is a counted failure unless it is out of place, malformed, postponed or a first "none" |
| UserAuthPolicy.RootDecides | auth.c:364-388 | an accepted attempt by root is a success if the policy allows it, else it changes no success and is a counted failure |
| UserAuthPolicy.ResponseDecided | auth2-chall.c:288-353 | a right answer is a success of the device that asked, unless root may not log in that way |
| UserAuthPolicy.RequestResets | auth2.c:269-287 | a request ends any pending question unless it starts a device itself, and "none" is tried once |
| UserAuthPolicy.FirstRequest | auth2.c:233-268 | in every run user, service, root and validity are those of the first request |
| UserAuthPolicy.SuccessPolicy | auth2.c:213-384 | success only if the user of the first request exists and asked for ssh-connection and the last message counts; for root PermitRootLogin is not "no", with prohibit-password the last message is a publickey or hostbased request, with forced-commands-only a command is forced |
| UserAuthPolicy.PickExact | auth2-chall.c:173-184 | a pass over the table uses up every unused, allowed device whose name the entry is a prefix of, and takes the last of them |
| UserAuthPolicy.JoinedEntries | auth2-chall.c:117-128 | the string that names all devices has them as its entries, in order |
| UserAuthRuns.SuccessIsEarned | auth2.c:296-384 | success only for a valid user whose last method passed the root policy and, with lists set, only if messages of the run ticked off a configured list in order, the last entry by the last message; a request ticks off its own method, an info response that of the device that was answering |
| UserAuthRuns.DistinctKeysPerEntry | auth2-pubkey.c:178-185 | a list with k publickey entries is completed only with k keys, pairwise different |
| UserAuthRuns.KeysVerified | auth2-pubkey.c:1125-1150 | recorded keys are pairwise different and each was verified in a request of the run |
| UserAuthRuns.NoInternalError | auth2.c:303-308 | authenticated-invalid-user, authenticated-and-postponed and missing-context errors are unreachable |
| UserAuthRuns.DeviceOnce | auth2-chall.c:158-191 | no keyboard-interactive device is started twice in one context |
| UserAuthRuns.FailuresBounded | auth2.c:364-373 | with MaxAuthTries at least 1 the counter stays within it, and below it while the dialogue goes on |
| UserAuthRuns.FailuresBoundedIff | auth2.c:364-373 | the exact condition on the configuration for the bound in every run |
| UserAuthRuns.AlwaysInLists | auth2.c:619-621 | if only keyboard-interactive entries carry a submethod, a success is always in some list |
| UserAuthRuns.WinNotInListsIff | auth2.c:601-623 | a success is fatal exactly if no list loses its first entry to it |
| UserAuthRuns.RequestNotInListsIff | auth2.c:619-621 | a request reaches that error exactly if it authenticates, some list starts with its method and a submethod, and none with the bare method |
| UserAuthRuns.NotInListsIff | auth2.c:619-621 | a run ends in that error exactly if one of its messages is such a request; info responses never cause it |
| UserAuthRuns.NotInListsReached | auth2.c:619-621 | with the one list `publickey:x` a first publickey request reaches it |
| UserAuthComplete.EmbedsIff | auth2.c:601-623 | taking the next entry whenever it matches ticks off a whole list exactly if the list is an in-order subsequence of the successes |
| UserAuthComplete.RunningMeansIncomplete | auth2.c:601-623 | while the dialogue goes on no valid list is such a subsequence, and without lists there was no success |
| UserAuthComplete.SuccessIff | auth2.c:316-361 | a message of the run that brings a success ends the dialogue with success exactly if some valid list then is such a subsequence, or no lists are set |
| UserAuthComplete.WrongReplyCounts | auth2-chall.c:327-349 | a wrong keyboard-interactive answer is counted exactly if no further device starts |
| UserAuthComplete.FinalsBounded | auth2.c:364-373 | no run has more than MaxAuthTries wrong passwords and answers that no further device follows |
| UserAuthComplete.RoundsUncounted | auth2-chall.c:340-349 | after any run that goes on and admits two devices, n further wrong answers can be given without one being counted, for every n |
| UserAuthComplete.WrongAnswersBoundedIff | auth2.c:319-373 | at most MaxAuthTries wrong answers in every run, exactly if keyboard-interactive authentication is off or never two devices are admitted |
| UserAuthComplete.OneDeviceIff | auth2-chall.c:158-191 | with at most one device that condition holds, and without lists only then |
| UserAuthComplete.WrongAnswersBounded | auth2.c:364-373 | with at most one device no run has more than MaxAuthTries wrong answers |
| UserAuthServer.MethodsValid | auth2.c:463-502 | the entry-by-entry loop decides whether all methods of a list are known and enabled |
| UserAuthServer.IsAllowed | auth2.c:392-409 | the loop decides whether some list admits the method |
| UserAuthServer.KbdintContext.constructor | auth2-chall.c:105-137 | a fresh context with the given device string, or all devices joined |
| UserAuthServer.KbdintContext.NextDevice | auth2-chall.c:158-191 | the two loops pick the device that the state machine picks |
| UserAuthServer.Authctxt.SetupMethodsLists | auth2.c:512-540 | keeps the valid lists and says whether any is left |
| UserAuthServer.Authctxt.UpdateMethodsLists | auth2.c:601-623 | edits the lists up to the first completed one; a success in no list is fatal |
| UserAuthServer.Authctxt.UserkeyAlreadyUsed | auth2-pubkey.c:1140-1150 | true exactly if an equal public key was recorded |
| UserAuthServer.Authctxt.UserauthPubkey | auth2-pubkey.c:78-220 | authenticates only an unused key of an accepted type with a verified signature, and records it; a query postpones |
| UserAuthServer.Authctxt.ChallengeStart | auth2-chall.c:225-252 | starts the next device or stops |
| UserAuthServer.Authctxt.Finish | auth2.c:296-384 | the state machine's finishing step |
| UserAuthServer.Authctxt.LookupMethod | auth2.c:440-455 | a method is found exactly if it is known, enabled and allowed |
| UserAuthServer.Authctxt.InputRequest | auth2.c:213-293 | the state machine's step for a request |
| UserAuthServer.Authctxt.InputInfoResponse | auth2-chall.c:288-353 | the state machine's step for an info response |
| UserAuthServer.Authctxt.DispatchInfoResponse | dispatch.c:91-132 | an info response that no device waits for is answered as unimplemented before the first request and disconnects after it |
| Deattack.ScanMeans | deattack.c:135-165 | with R the blocks equal to an earlier one: detected exactly if the first of R that the CRC test is true of is among the first 32; denial of service exactly if R has more than 32 and none of the first 32 is; else fine |
| Deattack.PlainScanAgrees | deattack.c:135-147 | with at most 32 blocks left the scan that does not count repeats gives the same verdict as the one that does |
| Deattack.MaskIsMod | deattack.c:151-152 | masking by the table size is reduction modulo it |
| Deattack.FreeSlot | deattack.c:115-152 | a table with fewer entries than slots has a free one, so probing ends |
| Deattack.MissMeansNew | deattack.c:150-163 | reaching a free slot means that no earlier block is equal |
| Deattack.StoreKeepsIndex | deattack.c:150-163 | storing a block there keeps every indexed block reachable |
| Deattack.Detector.Probe | deattack.c:151-161 | the probe hits exactly if the block occurred before |
| Deattack.Detector.Reserve | deattack.c:118-133 | allocates or enlarges the table; without memory the table is gone and its size kept |
| Deattack.Detector.HashScan | deattack.c:148-164 | the hash scan counts and checks exactly as the quadratic scan |
| Deattack.Detector.ShortScan | deattack.c:135-147 | the nested loops compute the scan that does not count |
| Deattack.Detector.DetectAttack | deattack.c:106-165 | across calls that grow and reuse the table the verdict is the one that the repeated blocks call for; bad lengths and failed allocations are errors |
| Argv.SplitAssembled | auth2-pubkey.c:265-387 | splitting an assembled vector gives its non-empty arguments, for all strings |
| Argv.RoundTripIff | auth2-pubkey.c:265-387 | it gives the vector back exactly if no argument is empty |
| Argv.SplitLiteral | auth2-pubkey.c:280-310 | text between quotes of either kind, without that quote and backslashes, is one argument as it stands |
| Argv.SplitUnbalanced | auth2-pubkey.c:309-315 | a quote that is never closed is an error |
| Argv.SplitWord | auth2-pubkey.c:273-319 | a word ends at a blank or a tab |
| Argv.AssembleArgv | auth2-pubkey.c:339-387 | the loops print the vector: quoted if it has blanks, quotes and escapes escaped |
| Argv.SplitArgv | auth2-pubkey.c:265-332 | the loops compute the split, including unbalanced quotes |
| Bitmap.BitMap.Zero | bitmap.c:63-67 | the empty set |
| Bitmap.BitMap.TestBit | bitmap.c:70-77 | membership |
| Bitmap.BitMap.Reserve | bitmap.c:80-96 | grows without changing the set, unless the bit is out of range or memory fails |
| Bitmap.BitMap.SetBit | bitmap.c:99-111 | adds the element, or changes nothing and fails |
| Bitmap.BitMap.Retop | bitmap.c:115-121 | lowers top without changing the set |
| Bitmap.BitMap.ClearBit | bitmap.c:124-136 | removes the element |
| Bitmap.BitMap.NBits | bitmap.c:139-157 | one more than the largest element, 0 for the empty set |
| Bitmap.BitMap.NBytes | bitmap.c:160-163 | the same in whole bytes |
| Bitmap.BitMap.ToString | bitmap.c:166-184 | the shortest big-endian string of the set, or failure if it does not fit |
| Bitmap.BitMap.FromString | bitmap.c:187-212 | the set of a big-endian string, or no change |
| Bitmap.OrAddsElement | bitmap.c:99-111 | or-ing a mask into a word adds one element |
| Bitmap.AndRemovesElement | bitmap.c:124-136 | and-ing its complement removes it |
| Bitmap.HighestBit | bitmap.c:139-157 | counting leading zeros finds the largest element |
| Bitmap.SameSetSameString | bitmap.c:166-212 | strings without leading zero bytes that denote the same set are equal |
| Bitmap.SetRoundTrip | bitmap.c:166-212 | reading the written string gives the set back exactly if all elements are below 2^24 |
| Bitmap.BytesRoundTrip | bitmap.c:166-212 | writing a set that was read strips exactly the leading zero bytes |
| Bitmap.ReadableIff | bitmap.c:187-199 | the written string is short enough to be read exactly for sets below 2^24 |
| Sha512Spec.RoundConstants | blocks.c:123-214 | the round constants are the first 64 bits of the fractional parts of the cube roots of the first eighty primes |
| Sha512Bits.ChBits | blocks.c:43 | each bit is that of y where x has a one, else that of z |
| Sha512Bits.MajBits | blocks.c:44 | each bit is the one that at least two of the three have |
| Sha512Bits.BigSigma0Bits | blocks.c:45 | bit i is the parity of bits i+28, i+34 and i+39 modulo 64 |
| Sha512Bits.BigSigma1Bits | blocks.c:46 | bit i is the parity of bits i+14, i+18 and i+41 |
| Sha512Bits.Sigma0Bits | blocks.c:47 | bit i is the parity of bits i+1, i+8 and, without wrapping, i+7 |
| Sha512Bits.Sigma1Bits | blocks.c:48 | bit i is the parity of bits i+19, i+61 and, without wrapping, i+6 |
| Sha512Bits.InitialWords | hash.c:17-26 | the initial words are the first 64 bits of the fractional parts of the square roots of the first eight primes |
| Sha512Bits.FirstRound | blocks.c:70-80 | the published working variables after the first round on "abc" |
| Sha512Bits.AbcSchedule | blocks.c:50-68 | the first sixteen computed schedule words of "abc" |
| Sha512.StateRoundTrip | blocks.c:14-38 | a state survives being stored and loaded |
| Sha512.NextWord | blocks.c:50-68 | the words the macro reads in place are those of the recurrence of section 6.4.2 of FIPS 180-4 |
| Sha512.Expand | blocks.c:52-68 | sixteen updates in place turn one group of schedule words into the next |
| Sha512.F | blocks.c:70-80 | one round of section 6.4.2 |
| Sha512.Block | blocks.c:105-232 | five groups of rounds and four expansions are the 80 rounds of the standard |
| Sha512.FoldConcat | blocks.c:105-236 | hashing blocks in two calls is hashing them in one |
| Sha512.HashBlocks | blocks.c:82-248 | folds all full blocks into the state and returns what is left over |
| Sha512.IvValue | hash.c:17-26 | the initial bytes are the initial hash value of section 5.3.5 |
| Sha512.PadIsTail | hash.c:41-71 | the padding of section 5.1.2 is the full blocks followed by one or two blocks of tail |
| Sha512.LengthBytes | hash.c:49-57 | the nine shifted bytes after seven zeros are the 128-bit length in bits |
| Sha512.FillTail | hash.c:41-71 | the scratch buffer holds that tail |
| Sha512.Hash | hash.c:30-76 | the result is SHA-512 of the message, for every length below 2^64 |
| ChaChaVectors.RotlMovesBits | chacha.c:24-25 | rotation moves bit i to bit (i + n) mod 32 |
| ChaChaVectors.QuarterVector | chacha.c:46-50 | the quarter round on the words of section 2.1.1 of RFC 8439 |
| ChaChaVectors.QuarterIs | chacha.c:46-50 | a quarter round on a state changes the four words it names in that way and no other |
| ChaChaVectors.DoubleRoundIs | chacha.c:142-151 | a double round mixes the columns of the four by four matrix, turns row r by r places, mixes the columns again and turns back |
| ChaChaVectors.BlockWord | chacha.c:141-182 | word i of a block is twenty rounds of word i plus the starting word modulo 2^32, little-endian |
| ChaChaVectors.KeyBytes | chacha.c:56-78 | a state starts with "expand 32-byte k" or "expand 16-byte k" and the key |
| ChaChaVectors.IvBytes | chacha.c:81-87 | it ends with counter and nonce |
| ChaCha.AdvanceCounts | chacha.c:184-188 | the carry from word 12 to word 13 counts modulo 2^64 |
| ChaCha.LaterCounts | chacha.c:184-188 | n blocks on, the counter is n higher and nothing else has changed |
| ChaCha.StreamAt | chacha.c:117-218 | byte i of the output is byte i of the input XOR byte i of the keystream |
| ChaCha.KeyByteCounter | chacha.c:117-218 | that byte is from the block at the starting counter plus i/64 |
| ChaCha.StreamTwice | chacha.c:117-218 | applying the cipher twice gives the message back |
| ChaCha.StreamSplit | chacha.c:117-218 | pieces of whole blocks compose |
| ChaChaLoop.XorStoredAll | chacha.c:167-205 | XOR on words, stored little-endian, is XOR on bytes |
| ChaChaLoop.CryptBlock | chacha.c:124-205 | ten double rounds, addition and XOR give the block XOR the keystream block |
| ChaChaLoop.ShortStream | chacha.c:118-123 | scratch bytes behind a short last block do not matter |
| ChaChaLoop.Context.KeySetup | chacha.c:56-78 | constants and key words; a 128-bit key is used twice |
| ChaChaLoop.Context.IvSetup | chacha.c:81-87 | counter and nonce words, counter 0 if none is given |
| ChaChaLoop.Context.EncryptBytes | chacha.c:90-219 | the target holds the input XOR the keystream, also in place; the counter has moved past every block begun; nothing else changes |
| ChachaPoly.OpenSeal | cipher-chachapoly.c:52-103 | decryption undoes encryption |
| ChachaPoly.OpenIff | cipher-chachapoly.c:52-103 | a packet is accepted exactly if it is the encryption of what comes out |
| ChachaPoly.TagCoversAll | cipher-chachapoly.c:70-80 | of two packets with the same tag, if one is accepted the other is exactly if the tag function agrees on all that precedes the tag, header included |
| ChachaPoly.BodyAt | cipher-chachapoly.c:82-90 | header byte i uses block i/64 of the header key, payload byte i block 1 + i/64 of the main key |
| ChachaPoly.NonceIsNumber | cipher-chachapoly.c:62-66 | the nonce is the sequence number, big-endian in eight bytes |
| ChachaPoly.LengthAgrees | cipher-chachapoly.c:107-119 | the length read ahead is that of the decrypted packet |
| ChachaPoly.PayloadBlocks | cipher-chachapoly.c:87-90 | payload byte i uses block 1 + i/64, never block 0 |
| ChachaPoly.PolyKeyBlock | cipher-chachapoly.c:64-68 | the tag key is block 0 |
| ChachaPoly.Init | cipher-chachapoly.c:32-40 | fails exactly if the key is not 64 bytes; else two contexts with the two halves |
| ChachaPoly.PacketCipher.Crypt | cipher-chachapoly.c:52-103 | seals, or opens if the tag is right; the tag is that of header and payload under the first 32 bytes of block 0 of the main key; a wrong tag leaves the target untouched; keys are kept |
| ChachaPoly.PacketCipher.GetLength | cipher-chachapoly.c:107-119 | the length from the first four bytes, none if there are fewer |

## Left out

- SSH protocol 1, X11 and SOCKS branches of the channel code, and datagram channels, whose credit is counted differently at the two ends.
- Forced tty reads and input and output filters of channels.
- Removal of mux clients, the master's own sessions as channels with a remote id, and the master's own remote forwardings with their port updates and cancellation.
- Reading and writing of messages as byte buffers in the mux proxy (`sshbuf`): messages are taken apart already.
- GSSAPI, Kerberos, PAM accounting, banners, logging and privilege separation in user authentication; the style part of a user name.
- Fields of authentication requests other than those that decide: a request whose fields do not fit its method ends the dialogue.
- `chachapoly_crypt` does not read its `authlen` argument, and neither does the model; wiping of buffers is not modelled.
- `ge25519_scalarmult_base` and its table, `ge25519_pack`, `ge25519_unpackneg_vartime` and the rest of `sc25519.c`.
- Primality of 2^255-19, Fermat's theorem and the group law of the curve: they are hypotheses.
- Poly1305 itself, the cipher dispatch and the InterMAC library.
- Timing and cryptographic strength.
- Ge25519.Mul: point coordinates are limb sequences passed by value, so aliasing between the coordinates of different points is not modelled.
- Sha512.Sixteen: the eighty unrolled rounds are grouped by sixteen, eight and four.
- MuxNet.Step: a message of a client is acted on when the master reads it; the queue from client to master is not modelled.
