# ROFL: verified models of its cores

This project models, in Dafny 4.11, the parts of the ROFL OpenFlow library whose behaviour is hardest to
see from any one function, and proves what they keep over whole runs. `dafny verify dfyconfig.toml`
checks all of it.

| file | what it models |
|---|---|
| `Headers.dfy` | the packet classifier as a function of the octets: Ethernet, VLAN, MPLS, ARP, IPv4, ICMP, IPv6, UDP, TCP, SCTP |
| `Listing.dfy` | the same classification said frame by frame in the numbers of the standards, without the functions that compute it |
| `Tags.dfy`, `TagLaws.dfy`, `TagMatches.dfy`, `Reclassify.dfy`, `ReclassifyLlc.dfy`, `ReclassifyMpls.dfy`, `PacketInputs.dfy` | pushing and popping VLAN and MPLS tags on a packet as a value, and the laws: what a pop undoes, whole nested runs, agreement with classifying anew, on Ethernet II and on LLC frames; and received frames at which the code fails |
| `Cpacket.dfy` | the packet object: one memory area with headroom, the doubly linked list of frames in the heap, mutually recursive parsers, tags moved in place |
| `EventLoop.dfy`, `IoThread.dfy` | the event loop of an I/O thread: notify and handle_events as interleaved steps, one per lock region; deferred removal of destroyed objects; and the object whose methods take those steps, timers included |
| `DescriptorPasses.dfy`, `Histories.dfy`, `TimerHistories.dfy` | what runs of the loop do seen from outside: which handlers are called for what was asked, posted and registered |
| `Throwing.dfy`, `LoopInputs.dfy` | the same loop when handlers throw, and runs in which that loses events and timers |
| `Timers.dfy`, `TimerLoop.dfy` | the timers of an object; and the event loop with the timers of all its objects, handlers running between one timer and the next |
| `Memory.dfy`, `CString.dfy`, `Bytes.dfy` | the byte buffer, the C memory functions, octets and big-endian fields |
| `Reassembly.dfy` | handle_read: whole OpenFlow messages out of a stream cut anyhow |
| `Transactions.dfy`, `Handshake.dfy`, `HandshakeSteps.dfy`, `Roles.dfy` | transaction identifiers and pending requests; the session state machine up to handle_dpt_open; controller roles |
| `ActionCodec.dfy`, `BucketCodec.dfy`, `ActionLaws.dfy`, `ActionSet.dfy` | wire form of action and bucket lists, how they are refused and what repacking settles; the action set |
| `Fib.dfy` | the learning switch's table and the rules it keeps in the datapath |

Where the source changes an object step by step, the model has a class with the same fields and loops, and
each method's contract equates the new state with a function on values; the laws are proved about those
functions. Records of what happened (`history`, `log`, `hist`, `sent`) are kept beside the state so that
statements over runs can be made; nothing in the model depends on them.

## Where the code does not do what it or its documentation says

Each of these is proved as an exact condition under which the code does meet its purpose. Names behind a
semicolon are lemmas with inputs at which it does not.

- A push or a pop of a tag on an LLC frame (a type below 0x600): the type is read eight octets further back,
  so a pop does not undo a push (`TagLaws.PushPopVlanIff`, `TagLaws.PushPopMplsIff`) and the frame list does
  not survive reclassification (`ReclassifyLlc.PushVlanLlcAgreesIff`, `ReclassifyLlc.PopVlanLlcAgreesIff`;
  `PacketInputs.SnapPushFails`, `PacketInputs.SnapPopFails`).
- Pushing a type below 0x600 onto an Ethernet II frame turns it into such an LLC frame for good, so a run of
  pushes and pops restores it only if it pushes none (`TagLaws.NestedRunRestoresIff`;
  `PacketInputs.ShortTypeSpoils`).
- pop_vlan forgets id and priority and enters the type of the tag even where another VLAN tag follows
  (`TagMatches.PopVlanTellsIff`), and takes the four octets behind the Ethernet header out of the packet,
  whichever frame it takes out of the list (`TagMatches.PopVlanTakes`).
- push_mpls keeps what was listed behind the tag, where a classifier sees payload behind the last label, and
  pop_mpls believes the type it is given (`ReclassifyMpls.PushMplsAgreesIff`,
  `ReclassifyMpls.PopMplsAgreesIff`).
- push_mpls means to inherit label and traffic class, but clearing the bottom-of-stack bit clears the rest
  of its octet (`Reclassify.PushedMplsInheritsIff`; `PacketInputs.LabelLost`).
- A push refused for want of headroom has already overwritten the type field (`Reclassify.RefusedPushIff`;
  `PacketInputs.OnePushTooManySpoils`).
- The fragment test looks at the reserved bit, not at more-fragments, so fragments are parsed into their
  transport layer (`Headers.FragmentsListedRightIff`; `PacketInputs.FragmentTakenForWhole`).
- A handler that throws costs the objects still to be served their wakeup (`Throwing.ThrowForgetsIff`), and
  the object at hand the rest of its events or timers (`Throwing.ThrowDropsBatchIff`,
  `TimerLoop.ThrowDropsTimersIff`; `LoopInputs.ThrowLosesEvents`, `LoopInputs.ThrowLosesTimer`).
- A read error other than EAGAIN keeps the fragment for the next connection
  (`Reassembly.NextConnectionFramedIff`; `Reassembly.StaleLosesHello`).
- reset_timer cancels one timer only (`Timers.ResetLeavesOneIff`; `Timers.ResetLeavesTwo`).
- The pointer form of remove refuses a range that reaches the last octet (`Memory.Cmemory.RemoveRange`); the
  other form does not check its offset (`Memory.Cmemory.Remove`), and a memory appended to itself is copied
  at twice the length (`Memory.Cmemory.Append`).
- ta_pending enters zeros for identifiers it does not know (`Transactions.UnknownValidatesIff`).
- The echo timeout keeps the HELLO flags, so the next connection sends two FEATURES requests
  (`Handshake.NextConnectionRequests`; `Handshake.EchoTimeoutAsksTwice`).
- The staleness test of role requests adds where a distance would subtract (`Roles.StaleIsOlderIff`;
  `Roles.OldRequestPasses`). NOCHANGE overwrites the role, which frees a slave (`Roles.RoleIsStandardIff`,
  `Roles.GuardsHold`; `Roles.NochangeFreesSlave`). The role is checked with 32 bits and stored with 16, so a
  stale request can make a master (`Roles.StaleKeepsRolesIff`, `Roles.StaleMakesMasterIff`;
  `Roles.StaleWideMakesMaster`).
- Bucket lengths are entered without padding while the loop advances with it (`BucketCodec.RoundTripIff`;
  `BucketCodec.PaddedBucketFails`).
- Unpacking actions or buckets subtracts declared lengths without looking whether that many octets are
  left, and then reads on behind them; the model stops there with `Overrun` (`ActionCodec.OverrunIff`,
  `BucketCodec.BucketsOverrunIff`; `ActionCodec.ShortOutputOverruns`, `BucketCodec.ShortBucketOverruns`).
- Actions of unknown type, EXPERIMENTER among them, share the slot of COPY_TTL_IN
  (`ActionSet.SlotsClashIff`).

## Assumptions

- Event loop: handlers return normally, except in `Throwing.dfy`; objects are created and destroyed by the
  thread that owns them, never get the identity of an earlier object, and are notified while they live;
  writing to the pipe adds one octet and reading takes one, as `src/rofl/platform/unix/cpipe.cc` does; the exception descriptor set stays
  empty, as `run` leaves it; timers are touched by the loop thread only, and only on live objects.
- Packets: an object whose Ethernet type field lies in its buffer (`Editable`); what the classifier reads
  behind a packet too short for an LLC type is a parameter (`stray`).
- Reassembly: messages declare at least their 8-octet header; what the code would ask of read for a shorter
  declaration is not modelled and ends the call as `Malformed`.
- Handshake: sessions of OpenFlow 1.0 and 1.2, either of which the application may not support; the
  application's callbacks do not close the session.
- Learning switch: within one session, and without the datapath's own timeouts.

## Model

| member | source | states |
|---|---|---|
| Headers.ClassifyTiles | src/rofl/common/cpacket.cc:1824-2543 | For every buffer the classifier terminates and its frames start at the packet start, follow each other without gap or overlap, stay inside the packet, are not empty, and only the first is an Ethernet frame |
| Headers.ParseContiguous | src/rofl/common/cpacket.cc:2013-2543 | Every chain of parse_* calls, from whatever layer it starts, yields frames that tile the octets it was given and never leave them |
| Headers.ContiguousOrder | src/rofl/common/cpacket.cc:1941-2543 | Of two frames in the list the earlier ends before the later begins, and neighbours touch |
| Headers.VlanOnlyFirst | src/rofl/common/cpacket.cc:2013-2139 | Once the parser has left the VLAN tags no VLAN frame appears again, so tags of one kind form one block |
| Headers.FirstVlanIsOutermost | src/rofl/common/cpacket.cc:684-725 | What vlan() finds on a classified packet, when it finds anything, is the frame right behind the Ethernet frame |
| Headers.ClassifiedMatch | src/rofl/common/cpacket.cc:2013-2139 | The match takes VLAN id and priority from the outermost VLAN tag and label and traffic class from the first MPLS label, and nothing from deeper tags |
| Headers.NoteAllFirst | src/rofl/common/cpacket.cc:2023-2139 | Folding the match over the frames under the presence flags leaves exactly what the first tag of each kind says, whatever the match held before |
| Headers.ParseDependsOnTail | src/rofl/common/cpacket.cc:2013-2543 | Two buffers that agree on the octets parsed give the same frames |
| Headers.Ipv4EndsIff | src/rofl/common/cpacket.cc:2184-2274 | The classifier stops at an IPv4 header if and only if the reserved bit, which it takes for more-fragments, is set or the frame the protocol field announces does not fit |
| Headers.FragmentsListedRightIff | src/rofl/common/cpacket.cc:2184-2274 | What is listed behind an IPv4 header is what stopping at fragments with more to come would list, if and only if the reserved bit equals the more-fragments flag of RFC 791 or nothing would fit; a fragment with more to come has further frames listed exactly when the reserved bit is clear and something fits |
| Listing.ClassifiedIff | src/rofl/common/cpacket.cc:1824-2543 | For every buffer: a list of frames is the one the classifier makes of it if and only if it is empty for fewer than 14 octets, and otherwise has the Ethernet frame first and behind each frame what its octets announce, in the numbers of the standards (0x8100, 0x88a8, 0x88e7, 0x8847, 0x8848, 0x0806, 0x0800, 0x86dd behind Ethernet and VLAN; 1, 4, 6, 17, 41, 132 behind IPv4; 4, 6, 17, 41, 58, 132 behind IPv6), each of the length of its kind, as long as there is room |
| Listing.ParsedIff | src/rofl/common/cpacket.cc:2013-2543 | The same from any layer, offset and end on |
| Listing.MatchIs | src/rofl/common/cpacket.cc:2013-2139 | In octets, for every buffer: the type of the match is that of the last VLAN tag or of the frame, id and priority are those of the first VLAN tag, label and traffic class those of the first label, and there are none without such a tag |
| Tags.PushWellFormed | src/rofl/common/cpacket.cc:1636-1681 | A push keeps the packet well formed: the Ethernet frame first at its start, every other frame inside it, the lengths adding up within it |
| Tags.PopWellFormed | src/rofl/common/cpacket.cc:1686-1819 | A pop keeps the packet well formed |
| Tags.TypeReadBackIff | src/rofl/common/protocols/fetherframe.cc:217-232 | The type is written at the Ethernet or, for a length below 0x600, the LLC position, and no other octet changes; it is read back if and only if the frame is LLC, the type is at least 0x600, or the LLC position holds it already |
| Reclassify.VlanBytesRead | src/rofl/common/protocols/fvlanframe.cc:126-226 | The four octets that the setters leave in a VLAN tag, in the order in which push_vlan calls them, read back as the id, the priority and the type that were set |
| Reclassify.MplsBytesRead | src/rofl/common/protocols/fmplsframe.cc:138-200 | The four octets that the setters leave in an MPLS tag read back as label and traffic class when the bottom-of-stack bit is set, and as the label without its low four bits and traffic class 0 when it is cleared; time to live and the bit itself are right |
| TagLaws.PushPopBytes | src/rofl/common/cpacket.cc:435-468 | Making room for a tag, filling it, and taking it out again, with the old type written back, restores every octet of the packet if and only if the frame is Ethernet II and stays so under the pushed type, or is LLC and the octets overwritten coincide |
| TagLaws.PushOctets | src/rofl/common/cpacket.cc:1636-1681 | After a push the octets are those of the frame with its type set, parted by the tag behind the moved Ethernet addresses; on Ethernet II the type field holds the pushed type |
| TagLaws.PushPopVlanIff | src/rofl/common/cpacket.cc:1636-1719 | pop_vlan after push_vlan restores start, end, octets and frame list if and only if the frame is not LLC and the pushed type is at least 0x600, or the LLC octets coincide |
| TagLaws.PushPopMplsIff | src/rofl/common/cpacket.cc:1724-1819 | pop_mpls with the former type after push_mpls restores start, end, octets and frame list under exactly the corresponding condition |
| TagLaws.NestedRunRestoresIff | src/rofl/common/cpacket.cc:1636-1819 | On a tidy Ethernet II packet, a balanced, properly nested run of VLAN and MPLS pushes and pops, of any length and with any 16-bit types, that has no more tags in flight than the headroom has room for, restores start, end, octets and frame list if and only if every type pushed is 0x600 or above |
| Reclassify.PushVlanAgrees | src/rofl/common/cpacket.cc:1636-1681 | After push_vlan with a VLAN type on a classified Ethernet II packet the frame list edited in place is the one classifying the new octets gives |
| Reclassify.PopVlanAgreesIff | src/rofl/common/cpacket.cc:1686-1719 | On an Ethernet II packet (LLC is PopVlanLlcAgreesIff): after pop_vlan of the outermost tag the edited list and a fresh classification agree if and only if the uncovered type is an ethertype, or nothing follows the tag, or what is then read as an LLC type announces no known protocol |
| ReclassifyLlc.PushVlanLlcAgreesIff | src/rofl/common/cpacket.cc:1636-1681 | On an LLC frame, push_vlan with a VLAN type leaves the list a fresh classification gives if and only if the two octets that move into the place of the type announce a VLAN tag and the pushed type, where it lands, does not set the fragment bit of an IPv4 header with more to come nor change the bottom-of-stack bit of labels that go on |
| ReclassifyLlc.PopVlanLlcAgreesIff | src/rofl/common/cpacket.cc:1686-1719 | On an LLC frame, pop_vlan leaves the list a fresh classification gives if and only if the type of the tag and the type the frame then reports announce the same layer, and not labels of which the first changes from the bottom of the stack; or neither of two different layers fits |
| ReclassifyMpls.PushMplsAgreesIff | src/rofl/common/cpacket.cc:1724-1775 | On a classified Ethernet II packet push_mpls with an MPLS type leaves the list a fresh classification gives if and only if there was no label and nothing behind the Ethernet header that the classifier knows, or there was one right behind it |
| ReclassifyMpls.PopMplsAgreesIff | src/rofl/common/cpacket.cc:1780-1819 | On a classified Ethernet II packet pop_mpls leaves the list a fresh classification gives if and only if the type it is given announces what was listed behind the label, payload behind the bottom of the stack and a label otherwise, or neither fits |
| TagMatches.PushesPut | src/rofl/common/cpacket.cc:1636-1775 | A push that finds headroom puts four octets in behind the moved addresses and a frame second in the list, writes the type where the frame keeps it, and changes no other octet; without headroom it has written the type, and without an Ethernet frame nothing |
| TagMatches.PopVlanTakes | src/rofl/common/cpacket.cc:1686-1719 | pop_vlan takes the outermost VLAN frame out of the list wherever it stands, but the four octets behind the Ethernet header out of the packet, gives the type of the tag to the Ethernet frame, forgets id and priority in the match and enters the type shown; without a VLAN frame nothing changes |
| TagMatches.PopMplsTakes | src/rofl/common/cpacket.cc:1780-1819 | pop_mpls does the same with an MPLS frame that stands second in the list and the type it is told; otherwise nothing changes |
| TagMatches.PushVlanTells | src/rofl/common/cpacket.cc:1667-1671 | On a classified Ethernet II packet whose match is right, push_vlan keeps type, VLAN and MPLS fields of the match those of a fresh classification, on top of any stack of tags |
| TagMatches.PopVlanTellsIff | src/rofl/common/cpacket.cc:1704-1708 | pop_vlan keeps them so if and only if the packet has no second VLAN tag |
| PacketInputs.SnapPushFails | src/rofl/common/cpacket.cc:1636-1719 | At a received SNAP frame a push leaves a list that does not agree with the octets, and push and pop do not give the octets back |
| PacketInputs.SnapPopFails | src/rofl/common/cpacket.cc:1686-1719 | At a received SNAP frame with a VLAN tag a pop leaves a list that does not agree with the octets |
| PacketInputs.LabelLost | src/rofl/common/cpacket.cc:1732-1764 | At a received frame with label 1 a pushed label does not read 1 where the match says 1 |
| PacketInputs.OnePushTooManySpoils | src/rofl/common/cpacket.cc:1655-1659 | At every received Ethernet II frame, after as many pushes as the 64 octets of headroom have room for, the next one is refused and has changed the packet |
| PacketInputs.ShortTypeSpoils | src/rofl/common/cpacket.cc:1636-1719 | At a received IPv4 frame, a push of type 0x5FF and its pop do not give the packet back |
| PacketInputs.FragmentTakenForWhole | src/rofl/common/protocols/fipv4frame.cc:391-394 | A received IPv4 fragment with more to come is listed with its UDP header |
| Reclassify.VlanRunAgrees | src/rofl/common/cpacket.cc:1636-1719 | On a classified Ethernet II packet, over every run of VLAN pushes and pops in which pushes use VLAN ethertypes and find headroom and pops uncover types from 0x600 on, the edited list stays equal to a fresh classification of the octets |
| Reclassify.PushedVlanInherits | src/rofl/common/cpacket.cc:1644-1670 | A pushed VLAN tag holds, in its octets, what the first VLAN frame of the list held in its own: id and priority; 0 and 0 without one; it announces the former type, and the match says the same |
| Reclassify.PushedMplsInheritsIff | src/rofl/common/cpacket.cc:1732-1764 | A pushed MPLS tag holds label and traffic class of the first MPLS frame of the list if and only if that label is a multiple of 16 and the traffic class 0; time to live it holds in any case; without a label all are 0 at the bottom of the stack; the match says what was meant |
| Reclassify.TagFields | src/rofl/common/protocols/fmplsframe.cc:147-203 | Id and priority are the low 12 and the high 3 bits of the first two octets of a VLAN tag; label, traffic class and bottom of stack are 20, 3 and 1 bits of an MPLS tag from the top |
| PacketInputs.TagInherited | src/rofl/common/cpacket.cc:1644-1670 | A received frame with a VLAN tag of id 5 and priority 3: the tag pushed onto it holds 5 and 3, and so does the match |
| Reclassify.RefusedPushIff | src/rofl/common/cpacket.cc:1655-1659 | A push refused for want of headroom leaves the packet as it was if and only if its type field already held the pushed type |
| Cpacket.MakeRoom | src/rofl/common/cpacket.cc:445-446 | The overlapping memmove and memset open a gap of four zero octets behind the Ethernet header and keep all other packet octets |
| Cpacket.CloseGap | src/rofl/common/cpacket.cc:462-462 | The overlapping memmove takes out exactly the four octets behind the Ethernet header |
| Cpacket.Cpacket.constructor | src/rofl/common/cpacket.cc:118-150 | A new packet holds the given octets behind its headroom and has no frames |
| Cpacket.Cpacket.FrameAppend | src/rofl/common/cpacket.cc:1842-1864 | On a well-formed doubly linked list: the frame becomes the last one and the list stays well formed |
| Cpacket.Cpacket.FramePush | src/rofl/common/cpacket.cc:1868-1894 | The frame becomes the second one, or the only one, all others keep their order and contents, and the list stays well formed in both directions |
| Cpacket.Cpacket.FramePop | src/rofl/common/cpacket.cc:1899-1936 | Exactly the given frame leaves the list wherever it stands, its links are cleared, and the list stays well formed in both directions |
| Cpacket.Cpacket.Reset | src/rofl/common/cpacket.cc:193-214 | All frames are unlinked, list and match are empty |
| Cpacket.Cpacket.FrameAt | src/rofl/common/cpacket.cc:567-620 | Walking forward from the head, or backward from the tail for negative indices, gives the frame at that place of the list, or none |
| Cpacket.Cpacket.Find | src/rofl/common/cpacket.cc:684-768 | The walk finds the first frame of the kind, or none when no frame has it |
| Cpacket.Cpacket.ParsePayload | src/rofl/common/cpacket.cc:1941-2543 | The mutually recursive parsers, started at any layer, append exactly the frames the classification function lists and fold the match over them, terminating because every call gets fewer octets |
| Cpacket.Cpacket.ParseVlan | src/rofl/common/cpacket.cc:2013-2087 | Appends the VLAN frame and what follows, and enters the tag in the match unless one is there |
| Cpacket.Cpacket.ParseMpls | src/rofl/common/cpacket.cc:2093-2137 | Appends MPLS frames to the bottom of the stack, and enters the first label in the match |
| Cpacket.Cpacket.ParseIpv4 | src/rofl/common/cpacket.cc:2184-2274 | Appends the IPv4 frame and goes on by protocol unless the fragment test holds or too few octets are left |
| Cpacket.Cpacket.ParseIpv6 | src/rofl/common/cpacket.cc:2319-2389 | Appends the IPv6 frame and goes on, except where the frame constructor throws and parsing ends |
| Cpacket.Cpacket.ParseEther | src/rofl/common/cpacket.cc:1941-2008 | Appends the Ethernet frame and the chain its type starts |
| Cpacket.Cpacket.Classify | src/rofl/common/cpacket.cc:1824-1837 | The heap list of frames and the match end up as the classification function of the octets says, for every packet |
| Cpacket.Cpacket.TagInsert | src/rofl/common/cpacket.cc:435-454 | Refuses without four octets of headroom, else moves the start back, opens the gap and re-seats the Ethernet frame |
| Cpacket.Cpacket.TagRemove | src/rofl/common/cpacket.cc:459-468 | Moves the start forward, closes the gap and re-seats the Ethernet frame |
| Cpacket.Cpacket.WriteVlan | src/rofl/common/protocols/fvlanframe.cc:126-226 | The in-place setters leave exactly the VLAN tag octets in the gap and touch nothing else |
| Cpacket.Cpacket.WriteMpls | src/rofl/common/protocols/fmplsframe.cc:138-200 | The in-place setters leave exactly the MPLS tag octets in the gap and touch nothing else |
| Cpacket.Cpacket.PushVlan | src/rofl/common/cpacket.cc:1636-1681 | Buffer, start, linked list and match after the in-place push are those of the value-level push, also when it is refused; the list stays well formed |
| Cpacket.Cpacket.PopVlan | src/rofl/common/cpacket.cc:1686-1719 | Buffer, start, linked list and match after the in-place pop are those of the value-level pop; nothing changes without a VLAN frame |
| Cpacket.Cpacket.PushMpls | src/rofl/common/cpacket.cc:1724-1775 | As PushVlan, for MPLS |
| Cpacket.Cpacket.PopMpls | src/rofl/common/cpacket.cc:1780-1819 | As PopVlan, for MPLS; nothing changes unless the second frame is MPLS |
| EventLoop.InitInv | src/rofl/common/ciosrv.cc:1082-1105 | The state before the first object satisfies the invariant |
| EventLoop.StepKeeps | src/rofl/common/ciosrv.cc:207-1066 | Whatever any thread does next, in any interleaving of lock regions, the token balance, the wakeup signalling, the coverage of queued events, delivery order and object lifetimes are kept |
| EventLoop.RunKeeps | src/rofl/common/ciosrv.cc:207-1066 | Every state of every run satisfies the invariant |
| EventLoop.NotifyKeeps | src/rofl/common/ciosrv.cc:207-289 | The three lock regions of notify keep the invariant, with any number of notifying threads |
| EventLoop.CopyKeeps | src/rofl/common/ciosrv.cc:944-975 | Copying the wakeup set and clearing it keeps the invariant: every live object with events is in the copy |
| EventLoop.NoLostWakeup | src/rofl/common/ciosrv.cc:207-289 | In every interleaving, while a live object has an event queued, a token is in the pipe, or a notifier of this very object has yet to put it up for wakeup, or the notifier that set the flag owes the token |
| EventLoop.AsleepMeansAllDelivered | src/rofl/common/ciosrv.cc:904-1066 | When the loop thread is about to sleep with an empty pipe, no notifier is about to put this object up and none owes the token, every event ever posted to the object, if it lives, has been delivered, once and in order |
| EventLoop.DeliveredInOrder | src/rofl/common/ciosrv.cc:1017-1050 | In every interleaving each object has been handed a prefix of what was posted to it |
| EventLoop.PassServesTheAwake | src/rofl/common/ciosrv.cc:942-1055 | By the time one pass of handle_events reads its token, whatever other threads did meanwhile, everything posted before the pass to an object then up for wakeup has been delivered unless the object was destroyed |
| EventLoop.HandlersSeeLiveObjects | src/rofl/common/ciosrv.cc:688-901 | No event, descriptor or timeout handler is ever called on a destroyed object |
| EventLoop.DestroyedIsUnlisted | src/rofl/common/ciosrv.cc:58-119 | A destroyed object is in no descriptor map and no timeout list, and is in the deletion list whenever the insertion or main list still holds it |
| EventLoop.LoopNeverStuck | src/rofl/common/ciosrv.cc:1174-1234 | In every run the loop thread can take a step of its own, whatever the other threads do |
| EventLoop.PassEnds | src/rofl/common/ciosrv.cc:990-1063 | A pass of handle_events ends: every step of its own decreases what is left of it, and no other thread or handler sets it back |
| Histories.HandedAsPosted | src/rofl/common/ciosrv.cc:207-289 | In every run, told by the actions alone: an object lives from its creation to its destruction, and what its handler is called for is a first part of what was posted to it, in order |
| Histories.NobodyIsBlocked | src/rofl/common/ciosrv.cc:207-340 | In every run any thread not in notify can notify any live object, and go through with it; in a handler objects can be made, destroyed and registered |
| Histories.WakesAndServes | src/rofl/common/ciosrv.cc:904-1066 | In every run, a loop thread that sleeps while something is queued for a live object, and nobody is in the middle of notifying, can wake up and by steps of its own alone call the handler for all that was ever posted to the object |
| DescriptorPasses.PassServes | src/rofl/common/ciosrv.cc:690-775 | In every run, whatever other threads and the handlers do: a pass over the read descriptors, or over the write descriptors, looks once at each one registered when it began, in ascending order, and calls, in that order, once and for its own descriptor, the handler of exactly those that are ready and still registered for a live object at their turn |
| DescriptorPasses.PassLeadsOn | src/rofl/common/ciosrv.cc:612-687 | The read pass ends where the write pass begins, and that at the top of the loop |
| DescriptorPasses.PassComesToEnd | src/rofl/common/ciosrv.cc:690-775 | Every step of a pass brings its end closer, and nothing else sets it back |
| DescriptorPasses.RegisteredAsAsked | src/rofl/common/ciosrv.cc:306-340 | In every run a descriptor is registered for the object that registered it last, unless it was deregistered or the object destroyed since |
| Throwing.MovesKeep | src/rofl/common/ciosrv.cc:1213-1232 | Over every run with any number of exceptions out of handlers there are enough tokens for the flag and the window, and objects live and are listed as without exceptions |
| Throwing.ThrowForgetsIff | src/rofl/common/ciosrv.cc:990-1063 | After any run with any number of exceptions, one more costs exactly the objects that are neither up for wakeup nor about to be put up: nothing more is delivered to them unless somebody notifies them again; any other live object stays up for service, and its wakeup signalled, as long as it has events |
| Throwing.ThrowDropsBatchIff | src/rofl/common/ciosrv.cc:1023-1050 | The first exception out of an event handler loses none of the events of the object at hand if and only if the event was the last of those taken from its queue |
| LoopInputs.ThrowLosesEvents | src/rofl/common/ciosrv.cc:990-1050 | A run of fourteen steps into a handler whose exception leaves one object alive with an event that nobody will deliver and another with an event lost |
| TimerLoop.DoesOneStep | src/rofl/common/ciosrv.cc:782-901 | Every deed of the loop with timers is a step of the event loop or leaves the loop as it is, so that what holds over every run of the loop holds here |
| TimerLoop.DoKeeps | src/rofl/common/ciosrv.cc:342-901 | Whatever the loop thread, its handlers and other threads do next, timers are accounted for and called as taken |
| TimerLoop.RunKeeps | src/rofl/common/ciosrv.cc:342-901 | Every state of every run with timers satisfies the invariant, and with a clock that does not run backwards and delays that are not negative the queues and what was taken out stay in order |
| TimerLoop.FiredAsTaken | src/rofl/common/ciosrv.cc:839-901 | In every run, whatever handlers register, reset, cancel, create or destroy between two calls: each timer registered is pending, cancelled or taken out, exactly one of them and once; an object's handler is called for a first part of what was taken out, in that order, and as long as the object lives for all of it but for the batch under way |
| TimerLoop.FiredInTime | src/rofl/common/ciosrv.cc:342-901 | In every such run in time, an object's handler is called in strict (deadline, registration) order over the whole run, never twice for a timer, never before its deadline, and never while an earlier one is pending |
| TimerLoop.BatchDone | src/rofl/common/ciosrv.cc:870-901 | Outside a batch the handler of a live object has been called for everything that was taken out |
| TimerLoop.TimeoutsNeverStuck | src/rofl/common/ciosrv.cc:782-901 | In every run the next step of handling timeouts can be taken where the loop has come to it |
| TimerLoop.TimeoutPassServes | src/rofl/common/ciosrv.cc:782-901 | In every run a pass over the timeouts gives each listed object its turn, in the order of the list, and by its end the handler of every object that still lives has been called for all its timers due at its turn |
| TimerHistories.RegisteredAsAsked | src/rofl/common/ciosrv.cc:342-441 | In every run the timers on record for an object are those that the handlers registered, each due its delay after the reading; unless some are cancelled or reset all are pending or taken out; and the handler is called for the kinds on record as fired |
| TimerHistories.CancelTakesFirst | src/rofl/common/ciosrv.cc:407-441 | Cancelling a kind takes away the first pending timer of the kind and no other, and cancelling all takes away all |
| TimerLoop.ThrowDropsTimersIff | src/rofl/common/ciosrv.cc:870-886 | An exception out of a timeout handler loses no timer of a live object if and only if nothing was left of the batch |
| LoopInputs.ThrowLosesTimer | src/rofl/common/ciosrv.cc:839-901 | A run of seven steps into a timeout handler whose exception loses the second of two timers taken out |
| IoThread.Thread.constructor | src/rofl/common/ciosrv.cc:1082-1105 | A new thread is the initial state of the machine, without timers |
| IoThread.Thread.QueueEvent | src/rofl/common/ciosrv.cc:214-242 | Under the event mutex: takes exactly the posting step |
| IoThread.Thread.RequestWakeup | src/rofl/common/ciosrv.cc:249-277 | Under the wakeup lock: takes exactly the enlisting step, and tells the one caller that set the flag to write the token |
| IoThread.Thread.WriteMessage | src/rofl/common/ciosrv.cc:279-280 | Takes exactly the token-writing step |
| IoThread.Thread.ResetFlag | src/rofl/common/ciosrv.cc:912-915 | Takes exactly the step that opens the event pass |
| IoThread.Thread.CopyWakeup | src/rofl/common/ciosrv.cc:944-975 | The filtering loop over the set yields every object up for wakeup, alive and listed, once, and clears the set: a copying step of the machine |
| IoThread.Thread.TakeEvents | src/rofl/common/ciosrv.cc:1008-1034 | Skips a destroyed object or empties the queue of the next one into the batch: the machine's step |
| IoThread.Thread.ReceiveMessage | src/rofl/common/ciosrv.cc:1063-1063 | Reads one token and goes on to the descriptors: the machine's step |
| IoThread.Thread.DrainLists | src/rofl/common/ciosrv.cc:463-483 | The two loops leave main = (main + insertion) - deletion and both side lists empty |
| IoThread.Thread.NextTimeout | src/rofl/common/ciosrv.cc:535-591 | The scan over the objects' own timer lists yields the earliest among the limit and the first deadlines, no later than any pending timer of any listed object, and lists exactly the objects whose first deadline it is, once each |
| IoThread.Thread.Prepare | src/rofl/common/ciosrv.cc:1187-1188 | fdset and next_timeout together are the machine's arming step, and the timeout is no later than any pending timer of any listed object |
| IoThread.Thread.NextReadable | src/rofl/common/ciosrv.cc:698-727 | One iteration of handle_rfds is the machine's step: skips vanished descriptors, strikes those of destroyed owners, calls only live ones |
| IoThread.Thread.NextWritable | src/rofl/common/ciosrv.cc:744-774 | One iteration of handle_wfds is the machine's step |
| IoThread.Thread.CopyTimeouts | src/rofl/common/ciosrv.cc:790-812 | The loop copies the timeout list without the destroyed objects, in order, and clears it: the machine's step |
| IoThread.Thread.TakeOutNext | src/rofl/common/ciosrv.cc:814-866 | For the next object of the copy: skips a destroyed one, else empties its timer list of exactly what is due at the last reading the loop took of the clock: the machine's taking-out step, at that reading |
| IoThread.ReadingInTime | src/rofl/common/ciosrv.cc:844-866 | With a clock whose readings are none before the last one known, the reading by which timers are taken out is one of them, and in time |
| IoThread.Thread.CallNext | src/rofl/common/ciosrv.cc:870-886 | Gives the batch up when the object is gone, else goes into the handler for its first timer: the machine's firing step |
| IoThread.Thread.RegisterTimer | src/rofl/common/ciosrv.cc:342-355 | In a handler, for any live object: the machine's registering step, and no other list changes |
| IoThread.Thread.ResetTimer | src/rofl/common/ciosrv.cc:358-384 | The machine's resetting step, and no other list changes |
| IoThread.Thread.CancelTimer | src/rofl/common/ciosrv.cc:407-426 | The machine's cancelling step, and no other list changes |
| IoThread.Thread.CancelAllTimer | src/rofl/common/ciosrv.cc:429-441 | The machine's step of cancelling everything, and no other list changes |
| IoThread.Thread.Construct | src/rofl/common/ciosrv.cc:30-55 | A new object is put into the insertion list, with no events and no timers: the machine's creating step |
| IoThread.Thread.StrikeReadFds | src/rofl/common/ciosrv.cc:74-83 | Erase-and-restart removes every entry of the object from the read map and no other |
| IoThread.Thread.StrikeWriteFds | src/rofl/common/ciosrv.cc:85-94 | Erase-and-restart removes every entry of the object from the write map and no other |
| IoThread.Thread.StrikeTimeouts | src/rofl/common/ciosrv.cc:96-106 | Erase-and-restart removes every occurrence of the object from the timeout list and keeps the order of the others |
| IoThread.Thread.Destruct | src/rofl/common/ciosrv.cc:58-107 | The destructor's locked region is the machine's destroying step |
| Timers.AddEnqueues | src/rofl/common/ciosrv.cc:343-355 | register_timer puts the timer behind every pending timer due no later: a stable sorted queue |
| Timers.CancelRemoves | src/rofl/common/ciosrv.cc:408-426 | cancel_timer removes the first pending timer of the kind in deadline order and no other |
| Timers.ResetLeavesOneIff | src/rofl/common/ciosrv.cc:358-384 | After reset_timer exactly one timer of the kind is pending if and only if at most one was before, and as many as before if any was; other kinds are untouched |
| Timers.ResetLeavesTwo | src/rofl/common/ciosrv.cc:358-384 | Two timers of a kind registered and the kind reset: two are still pending |
| Timers.HeadIsEarliest | src/rofl/common/ciosrv.cc:555-561 | The head entry that next_timeout looks at is no later than any pending timer |
| Timers.FlatSorted | src/rofl/common/ciosrv.cc:535-591 | Reading the map in key order gives the pending timers in deadline order |
| Timers.TakenIsDue | src/rofl/common/ciosrv.cc:844-866 | With a clock that does not run backwards __handle_timeout takes out exactly the timers due at its last reading, in deadline order, and leaves the others |
| Timers.StepAccounts | src/rofl/common/ciosrv.cc:342-866 | Whatever is done with the timers of an object, each registered so far is pending, taken out or cancelled, exactly one of them and once |
| Timers.StepPunctual | src/rofl/common/ciosrv.cc:342-866 | Done in time, it keeps what was taken out in strict (deadline, registration) order, due by the clock, and before everything pending |
| Timers.ExpireIs | src/rofl/common/ciosrv.cc:844-866 | Taking out splits the pending timers into those due and the others, in the order of the queue |
| Timers.TimerList.RegisterTimer | src/rofl/common/ciosrv.cc:343-355 | The pending queue gains the timer in its place |
| Timers.TimerList.CancelTimer | src/rofl/common/ciosrv.cc:408-426 | The nested walk erases the first match only; an emptied entry stays |
| Timers.TimerList.ResetTimer | src/rofl/common/ciosrv.cc:359-384 | One removal and one registration, in that order |
| Timers.TimerList.PendingTimer | src/rofl/common/ciosrv.cc:388-404 | True exactly when a timer of the kind is pending |
| Timers.TimerList.CancelAllTimer | src/rofl/common/ciosrv.cc:430-441 | Nothing is pending afterwards |
| Timers.TimerList.TakeExpired | src/rofl/common/ciosrv.cc:844-866 | The loop terminates, returns exactly the due timers in order, and leaves every other timer pending with a later deadline |
| Memory.RemoveUndoesInsert | src/rofl/common/cmemory.cc:404-474 | remove undoes insert at the same offset and length; insert undoes remove exactly when what was removed was zeros |
| Memory.StrictTotalOrder | src/rofl/common/cmemory.cc:161-187 | operator< is irreflexive, total, asymmetric and transitive, with equality as its equivalence |
| Memory.LessIff | src/rofl/common/cmemory.cc:161-187 | operator< puts the shorter memory first, and of two of one length the one with the smaller octet where they first differ |
| Memory.CompareTransitive | src/rofl/common/cmemory.cc:173-184 | The comparison of strings of one length is transitive |
| Memory.Cmemory.constructor | src/rofl/common/cmemory.cc:13-36 | A new memory is zeros |
| Memory.Cmemory.Resize | src/rofl/common/cmemory.cc:273-314 | Truncates, or extends with zeros |
| Memory.Cmemory.Insert | src/rofl/common/cmemory.cc:404-440 | Splits at the offset and fills with zeros; refuses exactly offsets beyond the end |
| Memory.Cmemory.Remove | src/rofl/common/cmemory.cc:464-474 | For an offset inside, and for no other: takes out the octets there are from it on, in the same allocation, and clears what they leave at its end |
| Memory.Cmemory.RemoveRange | src/rofl/common/cmemory.cc:444-460 | The pointer form refuses exactly the ranges that begin outside or reach the last octet |
| Memory.Cmemory.Append | src/rofl/common/cmemory.cc:211-220 | Concatenates; a memory that is not empty appended to itself is the one case in which the copy leaves the memory |
| Memory.Cmemory.LessThan | src/rofl/common/cmemory.cc:162-187 | Decides the order: length first, then the first differing octet |
| Reassembly.ServeFrames | src/rofl/common/openflow/cofdptImpl.cc:203-295 | However the stream is cut by short reads and EAGAIN, repeated handle_read calls deliver exactly its messages, in order, each buffer exactly its message, and keep exactly the unfinished rest |
| Reassembly.SentAreDelivered | src/rofl/common/openflow/cofdptImpl.cc:203-295 | Whatever messages of at least 8 octets, with their length in the third and fourth, are sent, and however the stream is cut and whatever empty answers come between: exactly these are delivered, in order, and the beginning of the next is kept |
| Reassembly.PumpIdle | src/rofl/common/openflow/cofdptImpl.cc:242-271 | Nothing to read suspends the call, a refused connection has it reconnect, another error fails it and end of file closes, with the octets got so far |
| Reassembly.PumpFrames | src/rofl/common/openflow/cofctlImpl.cc:438-527 | One call delivers exactly the next message and leaves every later octet unread, or suspends having lost nothing |
| Reassembly.ReadFrames | src/rofl/common/openflow/cofdptImpl.cc:223-287 | After each read the completeness test, which looks at a length field in a partly zero header, is right |
| Reassembly.MessagesAndTail | src/rofl/common/openflow/cofdptImpl.cc:203-295 | The messages and the rest of a stream are all of it |
| Reassembly.StaleLosesHello | src/rofl/common/openflow/cofdptImpl.cc:249-264 | With octets of a broken connection still in the fragment the next connection's HELLO is not delivered |
| Reassembly.NextConnectionFramedIff | src/rofl/common/openflow/cofdptImpl.cc:249-264 | After a read error other than EAGAIN the next connection is framed right, whatever it carries and however it arrives, if and only if the kept fragment holds no octets |
| Reassembly.Socket.Read | src/rofl/common/openflow/cofdptImpl.cc:242-242 | read on a non-blocking socket: a non-empty prefix of what is there, end of file, or an error |
| Reassembly.Session.Prepare | src/rofl/common/openflow/cofdptImpl.cc:223-237 | Computes the length wanted and grows the buffer to it |
| Reassembly.Session.ReadMessage | src/rofl/common/openflow/cofdptImpl.cc:219-288 | The read loop does what the stream function says, with the buffer holding the octets got and zeros behind |
| Reassembly.Session.HandleRead | src/rofl/common/openflow/cofdptImpl.cc:203-295 | The call does what the stream function says: keeps the buffer on EAGAIN, drops it on close, hands a whole message over, and leaves the fragment as it was on other errors |
| Transactions.AllocationsDistinctIff | src/rofl/common/crofbase.cc:2731-2767 | In wrapping 32-bit arithmetic, identifiers at most 2^32 allocations apart are equal exactly when they are 2^32 apart |
| Transactions.UnknownValidatesIff | src/rofl/common/crofbase.cc:2697-2717 | An identifier the table does not hold is validated if and only if type 0 is asked for, and is otherwise entered with a zero |
| Transactions.RunConsistent | src/rofl/common/crofbase.cc:2657-2796 | Over every run with fewer than 2^32 allocations the table, zeros aside, holds exactly the requests outstanding |
| Transactions.ValidateIffOutstanding | src/rofl/common/crofbase.cc:2780-2796 | After any such run a reply is accepted exactly when its request was sent with that type and no reply to it has been accepted; no request is answered twice |
| Transactions.Base.FirstUnused | src/rofl/common/crofbase.cc:2760-2762 | The do-while loop ends at an identifier not in use, having passed only used ones |
| Transactions.Base.NewAsyncXid | src/rofl/common/crofbase.cc:2731-2767 | The result is the 32-bit successor of the last identifier, and the set of used ones stays a run of at most 17 that ends with it |
| Transactions.Base.AddRequest | src/rofl/common/crofbase.cc:2657-2680 | A fresh identifier is entered with the type, whatever stood there |
| Transactions.Base.Pending | src/rofl/common/crofbase.cc:2697-2717 | Answers whether the type stands in the table, entering a zero for an unknown identifier |
| Transactions.Base.TaValidate | src/rofl/common/crofbase.cc:2780-2796 | Accepts and removes, or refuses |
| Handshake.OpensInOrder | src/rofl/common/openflow/cofdptImpl.cc:889-1286 | In every run each call of handle_dpt_open comes after an accepted HELLO, then a FEATURES reply, then a GET-CONFIG reply and, unless the version is 1.0, then a STATS reply, with no other HELLO accepted and no other open since: at most one per HELLO |
| Handshake.HandshakeCompletes | src/rofl/common/openflow/cofdptImpl.cc:889-1286 | From any state with the own HELLO out, the peer's HELLO and the replies in order, bearing the identifiers of the requests, end with the session open, once, after exactly the requests 5, 7 and, with 1.2, 18 |
| Handshake.EffectsAnswerRequests | src/rofl/common/openflow/cofdptImpl.cc:338-666 | In every run a message other than HELLO that has any effect on the session came after a HELLO, is a well-formed one of the three replies that take it on, and answers a request of type 5, 7 or, by version, 16 or 18 that was sent and not answered before |
| Handshake.OneFeaturesRequestIff | src/rofl/common/openflow/cofdptImpl.cc:839-935 | On a connection with one HELLO sent and one received, in either order and with any other traffic around them, the HELLO handling sends exactly one FEATURES request if and only if the flag of the HELLO that comes second was clear at the start |
| Handshake.NextConnectionRequests | src/rofl/common/openflow/cofdptImpl.cc:313-1020 | After a connection on which both HELLOs went through, the HELLO handling of the next one sends one FEATURES request if the former was closed and two if it ended with the echo timeout, whatever the order of the HELLOs and the other traffic |
| Handshake.EchoTimeoutAsksTwice | src/rofl/common/openflow/cofdptImpl.cc:839-1020 | A new session, its HELLO exchange, the echo timeout and the next HELLO exchange: three FEATURES requests for two connections |
| Handshake.RunConsistent | src/rofl/common/openflow/cofdptImpl.cc:338-666 | Session runs keep the transaction table consistent |
| Handshake.StepInStep | src/rofl/common/openflow/cofdptImpl.cc:338-1286 | Every input keeps the state machine in step with the replies processed since the last HELLO |
| Handshake.EndsCounted | src/rofl/common/openflow/cofdptImpl.cc:313-334 | In every run without malformed ports a session that connects by itself reconnects once for each close, refused HELLO, echo timeout and refused reconnection, and the application is told of its end at echo timeouts only; an accepted session never reconnects of itself, and the application is told at each close, refused HELLO and echo timeout |
| HandshakeSteps.HandshakeCompletesHeardFirst | src/rofl/common/openflow/cofdptImpl.cc:839-1286 | From any state with no HELLO out, a handshake in which the peer's HELLO comes first ends with the session open, once, after exactly the requests 5, 2, 7 and, with 1.2, 18 |
| HandshakeSteps.Transitions | src/rofl/common/openflow/cofdptImpl.cc:313-1286 | Where every input takes the state machine from every state: HELLOs, echo timeouts and refused reconnections from any; replies only if well formed and in answer to a request in the table; a close nowhere |
| HandshakeSteps.Outputs | src/rofl/common/openflow/cofdptImpl.cc:313-1286 | What every input has the session send and report in every state, and nothing else |
| HandshakeSteps.FlagsAsTold | src/rofl/common/openflow/cofdptImpl.cc:313-935 | In every run the two flags say whether a HELLO went out and came in on the connection that is up, and the application's requests go out if and only if one came in |
| HandshakeSteps.NothingBeforeHello | src/rofl/common/openflow/cofdptImpl.cc:839-935 | Whatever the input, no request goes out unless a HELLO has come in on the connection that is up |
| HandshakeSteps.OtherReplies | src/rofl/common/openflow/cofdptImpl.cc:338-666 | A reply to a barrier, queue, role or asynchronous configuration request takes a request of its type, by version, out of the table and does nothing else |
| Handshake.Cofdpt.SendHelloMessage | src/rofl/common/openflow/cofdptImpl.cc:839-850 | Sends the HELLO, and the first FEATURES and ECHO requests if a HELLO has been received |
| Handshake.Cofdpt.ReceiveHello | src/rofl/common/openflow/cofdptImpl.cc:889-935 | Refuses versions that are not supported and closes; else adopts the version, waits for FEATURES, and asks for them if the own HELLO is out |
| Handshake.Cofdpt.ReceiveMessage | src/rofl/common/openflow/cofdptImpl.cc:338-666 | Drops everything before a HELLO; validates the transaction before the message; hands on by type |
| Handshake.Cofdpt.ReceiveFeaturesReply | src/rofl/common/openflow/cofdptImpl.cc:1033-1110 | Asks for GET-CONFIG only while waiting for FEATURES; gives up on a malformed port |
| Handshake.Cofdpt.ReceiveGetConfigReply | src/rofl/common/openflow/cofdptImpl.cc:1134-1169 | Opens with version 1.0, asks for table STATS with 1.2, only while waiting |
| Handshake.Cofdpt.ReceiveStatsReply | src/rofl/common/openflow/cofdptImpl.cc:1217-1286 | Opens only while waiting for table STATS |
| Handshake.Cofdpt.Closed | src/rofl/common/openflow/cofdptImpl.cc:313-334 | Both HELLO flags are cleared and the state is kept |
| Handshake.Cofdpt.EchoReplyTimeout | src/rofl/common/openflow/cofdptImpl.cc:1007-1020 | The state is reset and the HELLO flags are kept |
| Roles.RoleIsStandardIff | src/rofl/common/openflow/cofctlImpl.cc:2369-2429 | In every run a controller's role is the one the standard gives it by what it asked for (NOCHANGE changes nothing, another's MASTER demotes) if and only if its last accepted request since then was for a role; roles are compared by the 16 bits kept, which are all there is when no request used more |
| Roles.AtMostOneMaster | src/rofl/common/crofbase.cc:465-497 | In every run at most one controller is MASTER |
| Roles.GuardsHold | src/rofl/common/openflow/cofctlImpl.cc:1656-2258 | In every run a message a slave may not send reaches its handler if and only if the standard does not make the sender a slave, or its last accepted request was not for a role; otherwise it is refused |
| Roles.NochangeFreesSlave | src/rofl/common/openflow/cofctlImpl.cc:2369-2429 | Join, SLAVE, NOCHANGE, flow-mod: by the standard the sender is a slave, and the flow-mod is handled |
| Roles.StaleIsOlderIff | src/rofl/common/openflow/cofctlImpl.cc:2384-2395 | The 64-bit staleness test agrees with the signed difference of the standard under exactly this condition on the two ids |
| Roles.OldRequestPasses | src/rofl/common/openflow/cofctlImpl.cc:2387-2393 | A request one generation behind passes the test for every cached id up to 2^62 |
| Roles.StaleKeepsRolesIff | src/rofl/common/openflow/cofctlImpl.cc:2381-2405 | In every run a request stale against the id of the last request accepted from its sender for MASTER or SLAVE changes no controller's role if and only if it asks, in all 32 bits, for MASTER or SLAVE, or its lower 16 bits name the role its sender holds |
| Roles.StaleWideMakesMaster | src/rofl/common/openflow/cofctlImpl.cc:2381-2405 | Join, SLAVE, and a stale request for MASTER with bit 16 set: the slave becomes master |
| Roles.StaleMakesMasterIff | src/rofl/common/openflow/cofctlImpl.cc:2381-2405 | A stale request makes its sender master if and only if its lower 16 bits say MASTER and a higher bit is set |
| Roles.GenerationKept | src/rofl/common/openflow/cofctlImpl.cc:2369-2405 | In every run what is accepted is told by the requests alone, and the generation id kept is the one of the last request accepted from the controller for MASTER or SLAVE since it joined; none is kept before |
| Roles.FreshIsAccepted | src/rofl/common/openflow/cofctlImpl.cc:2369-2405 | In every run a request that is not stale, or for neither MASTER nor SLAVE, gives its sender the role it asks for, cut to 16 bits |
| Roles.StaleIsRefused | src/rofl/common/openflow/cofctlImpl.cc:2381-2399 | Join, SLAVE with id 2^63 + 10, MASTER with id 5: the second request is refused and the sender stays SLAVE |
| Roles.SecondMasterDemotes | src/rofl/common/crofbase.cc:465-497 | Of two controllers that ask for role 2 the first ends with role 3, and its next flow-mod is refused |
| Roles.MembersAsTold | src/rofl/common/crofbase.cc:325-337 | In every run those controllers are known that joined and have not left since, and one that joins begins with role 1 and no id, whatever came before |
| Roles.Crofbase.RoleRequestRcvd | src/rofl/common/crofbase.cc:465-497 | The loop demotes every other master and touches no other role |
| Roles.Crofbase.ReceiveRoleRequest | src/rofl/common/openflow/cofctlImpl.cc:2369-2429 | The objects change as the role function says, or not at all when stale |
| ActionCodec.ListRoundTrip | src/rofl/common/openflow/cofaclist.cc:86-184 | Unpacking a packed list of sound actions gives the list back |
| ActionCodec.RepackIff | src/rofl/common/openflow/cofaclist.cc:86-184 | Packing what was unpacked gives the octets back if and only if every action's stored length is the one it packs to |
| ActionCodec.LoopConsumes | src/rofl/common/openflow/cofaclist.cc:117-149 | Unpacking consumes its octets to the last one: the stored lengths add up to them |
| ActionCodec.OverrunIff | src/rofl/common/openflow/cofaclist.cc:110-149 | The walk over the actions leaves its octets if and only if they are some actions it accepts and then a rest that ends before its length field or declares more octets than there are |
| ActionCodec.ShortOutputOverruns | src/rofl/common/openflow/cofaclist.cc:110-149 | Eight octets that declare a 16-octet OUTPUT action make the walk leave them |
| ActionCodec.SoundPacksToItself | src/rofl/common/openflow/cofaction.cc:67-82 | A sound action packs to its own buffer |
| ActionCodec.LetThroughIff | src/rofl/common/openflow/cofaction.cc:85-292 | Which octets pass, in the numbers of the standard: OUTPUT in 16 octets or more to a port not 0 and not 0xffffffff, EXPERIMENTER in 12 or more, types 11, 12 and 15 to 25 in 8 or more, with a length field of 8 or more |
| ActionCodec.SoundIff | src/rofl/common/openflow/cofaction.cc:67-292 | Which actions are sound: those whose length field is their length and that of their type, 16, 12 or 8, or any from 8 on for SET_FIELD; and all of them pack whole |
| ActionCodec.UnpackAction | src/rofl/common/openflow/cofaction.cc:85-292 | What passes the length, type and port checks is kept octet for octet |
| ActionCodec.Cofaclist.Unpack | src/rofl/common/openflow/cofaclist.cc:86-153 | The walk from header to header yields what the list function says, with its errors |
| ActionCodec.Cofaclist.Pack | src/rofl/common/openflow/cofaclist.cc:156-171 | Refuses when there is no room; else the buffer holds the packed list at its place and is unchanged elsewhere, and each action has labelled itself |
| ActionCodec.Cofaclist.ListLength | src/rofl/common/openflow/cofaclist.cc:174-184 | The sum of the actions' lengths |
| ActionLaws.RefusedIff | src/rofl/common/openflow/cofaction.cc:85-292 | With which error an action is refused: a length below 8, then an unknown type, then too few octets for it, then an OUTPUT to port 0 or 0xffffffff |
| ActionLaws.ListRefusedIff | src/rofl/common/openflow/cofaclist.cc:86-153 | The walk refuses a list with an error if and only if it is some actions it accepts and then one it refuses so; fewer than 8 octets of actions, or 16 of buckets, are an empty list |
| ActionLaws.BucketsRefusedIff | src/rofl/common/openflow/cofbclist.cc:106-142 | The walk over buckets refuses a list with an error if and only if it is some buckets it accepts and then one too short or whose actions are refused so |
| ActionLaws.PackedIs | src/rofl/common/openflow/cofaction.cc:67-82 | Packing writes as many of the own octets as the type asks for, and their number for a length, whatever stood there |
| ActionLaws.RepackSettles | src/rofl/common/openflow/cofaclist.cc:86-171 | Whatever octets unpack: packed once, the list unpacks, to sound actions, and packs to the same octets from then on |
| ActionLaws.BucketOctets | src/rofl/common/openflow/cofbucket.cc:123-147 | Where length, weight, port, group and actions of a bucket stand, and that its padding octets are left as they were |
| BucketCodec.RoundTripIff | src/rofl/common/openflow/cofbclist.cc:106-169 | Packed into a zeroed area, a list of buckets with sound actions unpacks to itself if and only if no bucket needs padding and every bucket's length fits its 16-bit field |
| BucketCodec.RoundTrip | src/rofl/common/openflow/cofbclist.cc:106-169 | Packed into any area, a list of buckets that need no padding unpacks to itself |
| BucketCodec.HeaderFields | src/rofl/common/openflow/cofbucket.cc:123-168 | The header holds length, weight, watch port and watch group at offsets 0, 2, 4 and 8 |
| BucketCodec.MisalignedFails | src/rofl/common/openflow/cofbucket.cc:123-168 | The length entered without padding, while the loop advances with it, misleads unpacking wherever the first such bucket stands |
| BucketCodec.PaddedBucketFails | src/rofl/common/openflow/cofbucket.cc:123-168 | One bucket with one 12-octet EXPERIMENTER action, packed into 32 zeros, does not unpack to itself |
| BucketCodec.BucketsOverrunIff | src/rofl/common/openflow/cofbclist.cc:106-142 | The walk over the buckets leaves its octets if and only if they are some buckets it accepts and then a rest that ends before its length field, declares more octets than there are, or holds actions that overrun |
| BucketCodec.ShortBucketOverruns | src/rofl/common/openflow/cofbclist.cc:106-142 | Sixteen octets that declare a 24-octet bucket make the walk leave them |
| BucketCodec.BucketsOnBoundaries | src/rofl/common/openflow/cofbucket.cc:217-230 | Every bucket of a packed list starts on an 8-octet boundary |
| BucketCodec.UnpackedLength | src/rofl/common/openflow/cofbucket.cc:149-168 | Unpacking a bucket consumes header and actions, but for a rest of fewer than 8 octets |
| BucketCodec.Cofbclist.Unpack | src/rofl/common/openflow/cofbclist.cc:106-142 | The walk from bucket to bucket yields what the list function says, with its errors |
| BucketCodec.Cofbclist.Pack | src/rofl/common/openflow/cofbclist.cc:145-169 | Refuses when there is no room; else each bucket stands on its boundary, its padding and everything else in the buffer unchanged |
| BucketCodec.Cofbclist.Length | src/rofl/common/openflow/cofbclist.cc:241-250 | The sum of the padded lengths |
| Fib.DatapathMirrorsTable | examples/etherswitch/cfib.cc:78-153 | After any run the datapath holds exactly one rule per entry, with the match and output that the entry's port dictates, and no others |
| Fib.LookupAnswersLastSeen | examples/etherswitch/cfib.cc:119-153 | After any run a lookup between unicast addresses answers the port on which the destination was last seen as a source since it last expired, this frame included, or FLOOD |
| Fib.RulesFollowSightings | examples/etherswitch/cfibentry.cc:67-142 | After any run, told by the operations alone: for every address last seen as a source on a port since it last expired there is the rule by eth_dst to that port; for every other that is known the rule by eth_src to the controller; and no other rule |
| Fib.KnownIsReached | examples/etherswitch/cfibentry.cc:67-101 | A frame to an address last seen on a port leaves by that port |
| Fib.EntriesLive | examples/etherswitch/cfibentry.cc:42-63 | No entry goes before 60 seconds have passed since its address was last seen or entered |
| Fib.RunRemembered | examples/etherswitch/cfib.cc:78-153 | Every entry, present or absent, is the one its address's history gives it |
| Fib.Cfibentry.SetOutPortNo | examples/etherswitch/cfibentry.cc:52-63 | The old rule is deleted before the port changes, the timer starts afresh, the new rule is added |
| Fib.Cfibentry.FlowModAdd | examples/etherswitch/cfibentry.cc:67-101 | A port entry forwards to its port by destination; a flooding entry sends to the controller by source |
| Fib.Cfibentry.FlowModDelete | examples/etherswitch/cfibentry.cc:121-142 | Deletes the rule that the present port stands for |
| Fib.Cfib.Update | examples/etherswitch/cfib.cc:93-115 | Creates the entry or moves it to the new port |
| Fib.Cfib.Lookup | examples/etherswitch/cfib.cc:119-153 | A multicast source is refused before anything is learned, a multicast destination after; an unknown destination gets a flooding entry |
| Fib.Cfib.EntryExpired | examples/etherswitch/cfib.cc:74-89 | The entry goes together with its rule |
| ActionSet.LastWriterWins | src/rofl/common/openflow/cofactionset.cc:93-118 | Write-actions leaves in every slot and field the last action that belongs there, and elsewhere what was held |
| ActionSet.SlotsClashIff | src/rofl/common/openflow/cofactionset.cc:33-59 | Two types share a slot exactly when each is COPY_TTL_IN or unknown |
| ActionSet.SlotsInOrder | src/rofl/common/openflow/cofactionset.cc:33-59 | The slots are numbered in the order in which OpenFlow 1.2 has a set executed |
| ActionSet.HeldAre | src/rofl/common/openflow/cofactionset.cc:93-118 | Every action that no later one replaces is held: a SET_FIELD under its field, any other in the slot of its type |
| ActionSet.BitsWritten | src/rofl/common/openflow/cofactionset.cc:122-128 | Every bit of the metadata is that of the last write whose mask has it, or as it was |
| ActionSet.WritesFold | src/rofl/common/openflow/cofactionset.cc:122-128 | Any number of masked metadata writes have the effect of a single one |
| ActionSet.Cofactionset.WriteActions | src/rofl/common/openflow/cofactionset.cc:93-118 | The loop leaves the two maps as the fold says |

## Left out

- Sockets, select, signals, logging and text output: reads and readiness are inputs of the model.
- cpacket `operator+` and `operator+=`, checksums, set_field, TTL actions and address parsing.
- Frame lists after pushing or popping labels on LLC frames, compared with reclassification.
- Headroom octets after a balanced run of tags: they are scratch space, and only the packet's own octets are restored.
- Memory: sizes are unbounded, so an offset plus length beyond 2^64 is not modelled, nor is a failed allocation.
- Memory.Cmemory.Append: does not say what happens when a memory that is not empty is appended to itself, where the source copies past the room it made; it says that this is the case.
- Memory.Cmemory.Remove: does not say what happens at an offset beyond the end, which the source does not check; it says that this is the case.
- Cpacket.Cpacket.constructor: models the constructor from a buffer, which leaves no space behind the packet.
- Pipes and descriptors that fail, and pselect errors other than an interrupt: the loop then starts over.
- Exceptions that leave `run`, as builds without NDEBUG let all but socket errors do.
- Reassembly.Session.HandleRead: has no branch for eOFpacketInval, which the source catches but nothing in the repository throws.
- IoThread.Thread.Prepare: models fdset and next_timeout as one step, because only the loop thread touches the lists they read. In the machine itself any listed objects may be armed; that they are those with the earliest deadline is `IoThread.Thread.NextTimeout`.
- The reply-timeout loops over cxidstore and cclock's comparison, whose `<=` does not test expiry.
- Handshake with OpenFlow 1.3, whose table statistics throw; what the application does with messages other than HELLO and the three replies of the handshake, of which only the transaction check is modelled; ports, and the reconnect timers.
- Roles: error replies and retransmissions of role requests.
- The experimenter action's data beyond its 12-octet header, instruction lists, flat statistics structures, and OpenFlow 1.0 and 1.3 action layouts.
- ActionCodec.Cofaclist.Unpack: says nothing about the actions kept when unpacking fails, where the source has thrown.
- ActionSet: which field a SET_FIELD names is taken as given, and clearing the set is not modelled.
- The learning switch's release of a datapath, its packet-out and blocking rules.
- The other example applications, spray tools and scripts.
