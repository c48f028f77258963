# A verified model of Uzanet's core

Uzanet sells internet access through captive portals: a payment is taken by M-Pesa or Kopo Kopo, and access is
granted in two stores at once, the database and the customer's router. This project models that core, and the
parts it stands on, in Dafny 4.11, and proves what they promise. `dafny verify dfyconfig.toml` checks all of it.

## What is modelled

**Payments** (`Payment*.dfy`, `AccessTables.dfy`, `UserTable.dfy`). `PaymentModel` is a transition system. A step is
one committed transaction with its router call: a request, the access task, the initiation's last write, both
callbacks, a poll, the jobs, a retry, router deletion, and everything an operator does to customers, packages and
routers. Steps interleave freely, and every router call may fail. `PaymentAccess` proves that the two stores agree in
every run, and `PaymentStrangers` that router users nobody sold are left alone. `PaymentMoves` and `PaymentLedger`
prove that for M-Pesa a session is provisioned exactly when one ledger row carries it, that the books balance, and
that provisioned is final; for Kopo Kopo they show the run in which this fails and the exact step that breaks it.
`PaymentRenewals` proves that a PPPoE expiry is the fold of the paid renewals, each counted once. `PaymentHotspot`
covers cleanup, lasting access and recovery, `PaymentWiped` the one way in which paid hotspot access can end early.
`PaymentServed` gives the router's line of every customer in full, after each operation and in every run;
`PaymentRequests` what each request is answered; `PaymentOutcomes` the status each callback, answer, job and deletion
leaves a session in, and what can follow; `PaymentWindow` the rate limit and idempotency keys; `PaymentJobs` the
callbacks and jobs; `PaymentRetired` deleted routers. `PaymentService` is the imperative code, method by method: each
entry point keeps the invariant of all runs, and each is proved to be steps of the transition system. Where a method
waits for a provider or works in several transactions, `meanwhile` holds what others do in between: any steps at all.

**The tunnel agent** (`Text`, `Ipv4`, `Shlex`, `ShlexWords`, `ChapSecrets`, `AddressPool`, `PeerStore`, `SecretsText`,
`AgentAnswers`, `NonceCache`, `AgentServer`). The secrets file is text used as a map. The printer, a complete POSIX
`shlex` reader, the allocator, the pruned nonce cache and the order of the server's checks are modelled, each with its
refinement. `AgentAnswers` says when a call is carried out and when it is refused; `SecretsText` exactly which lines
of others a rewrite of the text keeps.

**Router onboarding** (`OnboardingModel`, `OnboardingLifecycle`, `OnboardingAddresses`, `OnboardingOutcomes`,
`OnboardingService`). Onboarding, claim, download, expiry, edit and deletion are a saga over the router rows and the
agent's file. A call of the agent may take effect, take effect with its answer lost, or never arrive; commits may
fail; orphan peers are part of the states. Control networks may hold IPv6 addresses. `OnboardingAddresses` says under
exactly which settings routers keep the address of their peer; `OnboardingOutcomes` what claims, downloads, expiry,
edits and deletions answer, and that an onboarding which meets no failure ends claimed.

**MD5** (`JsNumbers`, `Rfc1321`, `Md5Arithmetic`, `Md5Core`, `Md5Padding`, `Md5`). `JsNumbers` defines the 32-bit
operators of JavaScript on integers, `Rfc1321` the digest as RFC 1321 sections 3.1 to 3.5 give it, and the rest
carries `hotspot/hotspot/md5.js` over and proves it equal to the digest.

**Quoting, login, portal refresh** (`RosQuoting`, `LoginLock`, `PortalRefresh`, `PortalOwnership`, `PortalPage`).

## How to read it

A function over values says what an operation does; methods on classes follow the source's statements and are
proved against it; lemmas state the properties, most of them over `Run`, a run of any steps in any order. Proofs by
`hide` keep definitions out of a proof that does not need them.

Assumptions the model makes, each from the source or its tables:

- A router call takes effect and returns, or raises with no effect. In the payment system commits succeed; in
  onboarding they may fail.
- A session's place in the table stands for its public id. `Derived(i)` is the user name made from it: names made
  from public ids are distinct, and no operator types one. Receipts and provider request ids are unique, as their
  constraints say.
- `complete_payment`, with its failure write, is one step, and so is each transaction that checks and then writes.
  Whoever calls `complete_payment` may be delayed for as long as it likes, so `StepComplete` may come at any time,
  but for M-Pesa not before the request id its caller found is stored.
- `TimelyRun` is the assumption the Kopo Kopo results need, and only they: a completion comes after the last write
  of the request that created the session.
- `PaymentWindow` assumes that a session's creation time is not before the clock its own check read
  (`database/models.py:157`); no order between requests' clocks is needed.
- `NonceCaches.PruningIsInvisible` and `NonceCaches.AcceptedAtMostOnce` assume that the clock does not run backwards
  in lock order; `ReplayAcceptedExactly` says, for any clocks, exactly when a nonce is accepted again.
- At the start, the agent's file has distinct addresses, one line per peer, and an IPv4 address on each peer's line.
- Reading and printing IPv6 addresses is an input of the onboarding model: any partial map of texts to texts, where no
  text it takes is a dotted quad or holds a slash, and every text it gives has a colon.
- MD5 strings are shorter than 2^31 - 8 characters, beyond which JavaScript cannot size the array.
- Octets with leading zeros are not addresses, as in Python from 3.9.5.
- The RouterOS reader knows the escapes the quoting produces and refuses everything else.

## Where the code does not do what it seems to promise

- `str2binl` is commented as padding for MD5 of any string, but writes only the low word of the length, so it follows
  RFC 1321 exactly below 2^29 bytes.
- `claim_onboarding` reads 0.0.0.0 as "no address yet". When the agent's pool starts at 0.0.0.0, no foreign line of
  the file takes that address, and the control networks hold it and another one, a claim moves a router off the
  address of its peer: `PoolFromZeroMovesAPeer` is such a run. `PeersStayExactly` says that all other settings and
  files are safe (`Settling`), and `ClaimMovesExactly` which claims move an address.
- The agent splits the secrets file at every line break Python knows, and joins the pieces with newlines. A line that
  holds a form feed, say, is cut there: a foreign line is lost and its pieces take its place, so that what stood behind
  the form feed in a comment becomes an entry (`CommentIsCutInTwo`), and a comment on the peer's own line can leave a
  line of somebody else's behind (`OwnCommentBecomesALine`). `RewriteKeepsOthersExactly` says for which files the lines
  of others are the same after a rewrite as before, none lost and none added. Carriage returns fare alike: reading the
  file already turns `\r` and `\r\n` into newlines, so a line is cut at a `\r` inside it and loses one at its end. The
  texts of the model are those after that reading.
- The nonce cache prunes with a clock that is read before the lock is taken: `ClockOrderIsNeeded`.
- A Kopo Kopo callback can overtake the initiation, whose last write then takes a paid session back to pending:
  `OvertakenKopoPaymentRenewsTwice`. A session stays provisioned exactly in the runs without that step:
  `ProvisionedStaysExactly`.
- A Kopo Kopo callback can even overtake the access task of a hotspot session, which then takes the expiry from the
  paid account; once the session has failed as well, the cleanup job removes the account of a customer who paid:
  `PaidAccountIsRemoved`. A paid account lasts exactly in the runs without that late task: `PaidAccessLastsExactly`.

## Model

| member | source | states |
|---|---|---|
| `Md5Arithmetic.SafeAddIsWrappingAdd` | hotspot/hotspot/md5.js:13-18 | for all integers, the sum built from 16-bit halves is the 32-bit wrapping sum |
| `Md5Arithmetic.SafeAddResidue` | hotspot/hotspot/md5.js:13-18 | the same sum read as an unsigned word is RFC 1321 addition of the two words |
| `Md5Arithmetic.RolRotates` | hotspot/hotspot/md5.js:23-26 | for every 32-bit value and shift from 1 to 31, the two shifts joined by `\|` are the circular left rotation |
| `Md5Arithmetic.CmnIsOperation` | hotspot/hotspot/md5.js:31-34 | `cmn` is the operation `b + ((a + F + X[k] + T[i]) <<< s)` of RFC 1321 section 3.4 |
| `Md5Arithmetic.FfStep` | hotspot/hotspot/md5.js:35-38 | `ff` is a round 1 operation with the function F |
| `Md5Arithmetic.GgStep` | hotspot/hotspot/md5.js:39-42 | `gg` is a round 2 operation with the function G |
| `Md5Arithmetic.HhStep` | hotspot/hotspot/md5.js:43-46 | `hh` is a round 3 operation with the function H |
| `Md5Arithmetic.IiStep` | hotspot/hotspot/md5.js:47-50 | `ii` is a round 4 operation with the function I |
| `Rfc1321.ComplementFlipsEveryBit` | hotspot/hotspot/md5.js:35-50 | the specification of NOT used for `~` flips every one of the 32 bits |
| `Md5Core.Round1` | hotspot/hotspot/md5.js:70-85 | the 16 unrolled `ff` calls are steps 0 to 15 of the indexed loop |
| `Md5Core.Round2` | hotspot/hotspot/md5.js:87-102 | the 16 unrolled `gg` calls are steps 16 to 31 |
| `Md5Core.Round3` | hotspot/hotspot/md5.js:104-119 | the 16 unrolled `hh` calls are steps 32 to 47 |
| `Md5Core.Round4` | hotspot/hotspot/md5.js:121-136 | the 16 unrolled `ii` calls are steps 48 to 63 |
| `Md5Core.CoreMD5` | hotspot/hotspot/md5.js:56-144 | for every whole number of blocks, the four results are the registers of RFC 1321 section 3.4 after all blocks |
| `Md5Padding.Str2Binl` | hotspot/hotspot/md5.js:181-191 | the array built in place holds the little-endian words of the message, the 0x80 marker, zeros and the bit length, in whole 16-word blocks |
| `Md5Padding.Strw2Binl` | hotspot/hotspot/md5.js:197-207 | the array built in place is the one for the little-endian UTF-16 bytes of the string |
| `Md5Padding.PackBothWays` | hotspot/hotspot/md5.js:181-207 | for every string, the loops of `strw2binl` on it and those of `str2binl` on its UTF-16 bytes leave equal arrays: the shift of `i<<4` bits and the byte-wise shift pack alike |
| `Rfc1321.ZeroCountIsLeast` | hotspot/hotspot/md5.js:183-189 | the padding adds the fewest zero bytes that fill whole blocks |
| `Md5.PaddingIsRfcExactlyBelow512MiB` | hotspot/hotspot/md5.js:181-191 | the blocks are those of RFC 1321 sections 3.1 and 3.2 if and only if the message is shorter than 2^29 bytes |
| `Md5.MessageRecoverable` | hotspot/hotspot/md5.js:181-191 | message, marker and length do not overlap: the message can be read back from the blocks |
| `Md5.Binl2Hex` | hotspot/hotspot/md5.js:149-159 | the string is the hex text of the words' bytes, low byte first |
| `Md5.HexDecodes` | hotspot/hotspot/md5.js:149-159 | the hex text decodes to the bytes it was made from |
| `Md5.BlocksGiveTheDigest` | hotspot/hotspot/md5.js:181-212 | for messages shorter than 2^29 bytes the result for the padded blocks is the RFC 1321 digest |
| `Md5.HexMD5` | hotspot/hotspot/md5.js:212 | the whole pipeline: for strings below 2^29 characters, the hex text of the RFC 1321 digest of their low bytes |
| `Md5.HexMD5w` | hotspot/hotspot/md5.js:213 | the same for the UTF-16 bytes of a string |
| `Ipv4.AddressRoundTrip` | vpn_agent/agent.py:65-71 | an address printed by `str` reads back as itself |
| `Ipv4.AddressUnique` | vpn_agent/agent.py:65 | a text that reads as an address is the one text of that address |
| `Shlex.ReadQuoted` | vpn_agent/agent.py:46-54 | a value quoted by `_quote` is read by the tokeniser as one word with exactly that value, whatever it holds |
| `Shlex.BareWordExactly` | vpn_agent/agent.py:46-50 | text written without quotes reads back as itself if and only if it is a bare word |
| `ShlexWords.WordIsRead` | vpn_agent/agent.py:51-54 | a word written in any pieces, bare, single-quoted, double-quoted or behind a backslash, is read as one word that says what they say, and a hash ends the line |
| `ChapSecrets.PeerLineReadsBack` | vpn_agent/agent.py:121-124 | a written line reads back as its four fields; the address field does so exactly when it is a bare word |
| `ChapSecrets.MatchesAreThePeer` | vpn_agent/agent.py:106-113 | the lines collected for a name are empty exactly when the map has no such peer, and the first one is its entry |
| `ChapSecrets.PeersOfRetained` | vpn_agent/agent.py:106-113 | dropping the lines of a name removes exactly that name from the map |
| `ChapSecrets.SettledKeepsMeaning` | vpn_agent/agent.py:87 | dropping blank lines at the end changes neither peers nor used addresses nor foreign lines |
| `ChapSecrets.MutateUpdatesTheMap` | vpn_agent/agent.py:97-126 | create, rotate and delete are updates of a map from peer names to secrets; an existing peer keeps its address; a refusal changes nothing |
| `ChapSecrets.OtherLinesStay` | vpn_agent/agent.py:104-125 | every line the agent sees, as `splitlines` splits the file, but the peer's own keeps its text and order; a deletion drops trailing blank lines |
| `AddressPool.AllocationIsLeastFree` | vpn_agent/agent.py:59-73 | the address given is the least free one, and there is none exactly when the pool is full |
| `AddressPool.PoolIsConserved` | vpn_agent/agent.py:59-73 | free addresses = size of the pool - foreign lines in range - peers in range |
| `AddressPool.MutateKeepsTidy` | vpn_agent/agent.py:97-126 | distinct addresses and one line per peer survive every call, and foreign lines stay |
| `AddressPool.RunKeepsTidy` | vpn_agent/agent.py:97-126 | the same over every run of calls |
| `AddressPool.RunKeepsAddress` | vpn_agent/agent.py:120 | in every run without its deletion a peer keeps its address |
| `AgentAnswers.CallIsPlacedExactly` | vpn_agent/agent.py:97-126 | a create or rotate is refused for a name that is not `router-` and a UUID, then for a password that is not 20 to 128 URL-safe characters, then for a full pool; otherwise, and only then, it is carried out |
| `AgentAnswers.DeleteAnswers` | vpn_agent/agent.py:98-118 | a delete is refused for a malformed name alone and says whether there was such a peer |
| `AgentAnswers.NewAddressIsOnNoLine` | vpn_agent/agent.py:59-73 | a new peer gets an address of the pool that is the fourth word of no line, whoever's it is, and every lower one is on some line |
| `PeerStores.PeerStore.constructor` | vpn_agent/agent.py:35-43 | the store and its address range |
| `PeerStores.PeerStore.Allocate` | vpn_agent/agent.py:59-73 | the allocation loop returns the least free address, and says how it ends on a full pool: in pool_exhausted, or in an internal error when the pool ends at 255.255.255.255 |
| `PeerStores.PeerStore.SortOut` | vpn_agent/agent.py:106-113 | the loop sorts the lines into the peer's own, tokenised, and all others |
| `PeerStores.PeerStore.Write` | vpn_agent/agent.py:75-95 | the text written, and what its lines read back as |
| `PeerStores.PeerStore.Mutate` | vpn_agent/agent.py:97-126 | the loop over the file refines the specification of one call, and the whole new text is the specified one; a call that changes nothing leaves the text |
| `SecretsText.SameLinesExactly` | vpn_agent/agent.py:105 | the agent's lines are the newline-separated lines of the text if and only if the text has no other line break |
| `SecretsText.RewriteKeepsOthersExactly` | vpn_agent/agent.py:87-126 | after a rewrite the lines of others, as newlines separate them and blank ones aside, are those before it, in order, if and only if every foreign line is one line to the agent, every line of the peer's own leaves nothing over when it is split, and the address written is one a reader sees |
| `SecretsText.RewriteLosesNoneExactly` | vpn_agent/agent.py:87-126 | a rewrite loses no newline-separated line of others that is not blank if and only if none of those lines holds another line break |
| `SecretsText.RewriteKeepsOthersInOrder` | vpn_agent/agent.py:97-126 | on such a text a rewrite keeps all lines of others in their order, and a deletion drops blank ones at the end |
| `SecretsText.CommentIsCutInTwo` | vpn_agent/agent.py:105 | any entry written behind one of Python's other line breaks in a comment, a form feed for one, is no entry before a rewrite and is one after it |
| `SecretsText.OwnCommentBecomesALine` | vpn_agent/agent.py:105-113 | any line written behind such a break in a comment on the peer's own line is nobody's before a rewrite for that peer, and somebody else's after it |
| `NonceCaches.NonceCache.Consume` | vpn_agent/agent.py:134-144 | checks and pruning in place, against the specification of one call |
| `NonceCaches.ConsumeDecides` | vpn_agent/agent.py:134-144 | the pruned cache decides one request as a history that never forgets |
| `NonceCaches.AcceptedExactly` | vpn_agent/agent.py:134-144 | a request is taken exactly for 32 hexadecimal digits, a time stamp within 60 seconds of the clock either way, and no use in the cache from the last 60 seconds |
| `NonceCaches.PruningIsInvisible` | vpn_agent/agent.py:134-144 | over every run in clock order, cache and full history give the same answers |
| `NonceCaches.AcceptedAtMostOnce` | vpn_agent/agent.py:134-144 | in clock order the same nonce and time stamp are accepted at most once |
| `NonceCaches.ReplayAcceptedExactly` | vpn_agent/agent.py:134-144 | for any clocks and requests between: an accepted nonce and time stamp are accepted again if and only if the clock is within 60 seconds of the time stamp and a request between has pruned with a clock more than 60 seconds past it |
| `NonceCaches.ClockOrderIsNeeded` | vpn_agent/agent.py:137-144 | such a run exists, since `now` is read before the lock: a nonce is accepted twice |
| `AgentServers.AgentServer.Handle` | vpn_agent/agent.py:157-184 | the order of the checks: size and form, signature, nonce, action |
| `AgentServers.OthersLeaveTheFile` | vpn_agent/agent.py:157-184 | a request that is not answered leaves the file as it was |
| `AgentServers.AnswersNeedTheCache` | vpn_agent/agent.py:167-176 | an answer needs a signature and an accepted nonce |
| `AgentServers.MutatesAtMostOnce` | vpn_agent/agent.py:157-184 | a replayed request is answered at most once, so it changes the file at most once |
| `OnboardingModel.AgentCallsKeepPeers` | services/onboarding_service.py:340-383 | whether a call of the agent takes effect or not, all other routers keep their peer lines |
| `OnboardingModel.AcceptedAddressIsItself` | services/onboarding_service.py:46-56 | an address accepted by `_valid_claim_ip` is stored as it was given |
| `OnboardingModel.ClaimOnRow` | services/onboarding_service.py:456-470 | a claim never revives a deleted row, never changes a known address, never adds a script |
| `OnboardingModel.RunKeepsInv` | services/onboarding_service.py:305-385 | the invariant of the saga holds in every run of create, claim, edit and delete with failing calls and commits |
| `OnboardingLifecycle.RowEvolvesOverRuns` | services/onboarding_service.py:409-477 | over every run a router row only moves along its lifecycle |
| `OnboardingLifecycle.NoDownloadEverAgain` | services/onboarding_service.py:409-442 | once a download is refused for claim, deletion or expiry, no token ever downloads again |
| `OnboardingLifecycle.DownloadsAgree` | services/onboarding_service.py:409-432 | any two successful downloads return the same script for the same token |
| `OnboardingLifecycle.DownloadIsRetryable` | services/onboarding_service.py:409-432 | while the row is pending and not expired, a download that worked works again |
| `OnboardingLifecycle.ScriptsArePending` | services/onboarding_service.py:409-477 | a stored script exists only while the router is pending |
| `OnboardingLifecycle.DeletedIsFinal` | services/router_service.py:117-158 | deleted is never left, and a deleted row has no token and no script |
| `OnboardingAddresses.MutateGivesNoZero` | vpn_agent/agent.py:59-73 | an agent whose pool does not give 0.0.0.0 on a file puts it on no peer's line, and never will |
| `OnboardingAddresses.RunKeepsAddresses` | services/onboarding_service.py:305-477 | with safe settings, in every run each live router not edited since has the address its peer was given |
| `OnboardingAddresses.TunnelAddressesAreNotShared` | services/router_service.py:106-182 | in every run no two live routers onboarded through the agent share an address, and each has its peer line with it |
| `OnboardingAddresses.ClaimsNeverMoveAPeer` | services/onboarding_service.py:463-466 | with safe settings no claim moves a router off the address its peer was given |
| `OnboardingAddresses.ClaimMovesExactly` | services/onboarding_service.py:456-470 | a claim changes an address exactly when the row says 0.0.0.0, is neither expired nor claimed, and the claim names another address of the control networks, IPv4 or IPv6 |
| `OnboardingAddresses.PeersStayExactly` | services/onboarding_service.py:456-470 | routers keep the address of their peer in all runs if and only if the settings and the file are safe: 0.0.0.0 is not in the control networks, or nothing else is, or the agent never gives it |
| `OnboardingAddresses.ClaimMovesAPeer` | services/onboarding_service.py:305-470 | under all other settings a run of three steps ends with a router on another address than its peer's |
| `OnboardingAddresses.PoolFromZeroMovesAPeer` | services/onboarding_service.py:463-466 | such a run with a pool from 0.0.0.0 to 0.0.0.9 and a claim from 0.0.0.1 |
| `OnboardingLifecycle.ClaimIsIdempotent` | services/onboarding_service.py:458-475 | a second claim with the token changes nothing |
| `OnboardingLifecycle.SlugsStayUnique` | services/router_service.py:150-160 | in every run no two routers share a portal slug, deleted ones included |
| `OnboardingOutcomes.ClaimAnswersExactly` | services/onboarding_service.py:458-475 | for an address of the control networks: done exactly when the token counts, the row is not claimed, and it says 0.0.0.0 or that address; the row is then claimed there without script and download token; every other claim changes nothing and says which check failed |
| `OnboardingOutcomes.StrangeClaimsAnswer` | services/onboarding_service.py:46-56 | an address outside the control networks is refused after the checks of token and status |
| `OnboardingOutcomes.PrefixLengthIsDropped` | services/onboarding_service.py:47 | an address may be named with a prefix length |
| `OnboardingOutcomes.AgentAnswerIsKept` | services/onboarding_service.py:340-342 | a create call that takes effect, for a UUID and any secret of the agent's format, puts the router in flight at the address of its peer whenever it has one or the pool has room |
| `OnboardingOutcomes.LostAnswerLeavesAPeer` | services/onboarding_service.py:340-342 | a create call whose answer is lost leaves a peer without a router, one that never arrives leaves nothing |
| `OnboardingOutcomes.FileIsLeftWithoutAgent` | services/onboarding_service.py:340-342 | without the agent no run touches its file |
| `OnboardingOutcomes.CommitStores` | services/onboarding_service.py:322-363 | the row an onboarding commits: pending, at its peer's address, with the claim token, the download token and the script drawn for it |
| `OnboardingOutcomes.CommittedRouterIsClaimed` | services/onboarding_service.py:445-477 | a committed router that claims in time from its peer's address ends claimed there |
| `OnboardingOutcomes.OnboardingSucceeds` | services/onboarding_service.py:305-477 | from the agent's call to the claim: with room in a pool inside the control networks a new router ends claimed at an address no line assigned before, and its peer has it |
| `OnboardingOutcomes.UnassistedRouterIsClaimed` | services/onboarding_service.py:463-472 | without the agent a router is claimed at the first address it names |
| `OnboardingOutcomes.AbortRevokes` | services/onboarding_service.py:376-382 | an onboarding that does not commit leaves no row, and no peer when its revocation takes effect |
| `OnboardingOutcomes.RevocationRemoves` | services/vpn_agent_service.py:80-82 | a revocation that takes effect removes its peer and no other, answered or not |
| `OnboardingOutcomes.DownloadsExactly` | services/onboarding_service.py:416-430 | a script is handed out exactly for 43 URL-safe characters that are the row's download token, before its expiry, while the router is pending and its owner active |
| `OnboardingOutcomes.FreshScriptIsHandedOut` | services/onboarding_service.py:409-432 | the script of a committed onboarding can be had with its token until it expires, for an active owner, and by nobody else |
| `OnboardingOutcomes.ExpiryIsUnseen` | services/onboarding_service.py:435-442 | expiring downloads changes no later answer, keeps the rest of every row, and leaves no expired script |
| `OnboardingOutcomes.DeletionRevokes` | services/router_service.py:106-182 | a deletion whose revocation takes effect removes the peer and no other, closes the portal, frees the slug and withdraws all tokens |
| `OnboardingOutcomes.DirectDeletionIsLocal` | services/router_service.py:119-166 | the deletion of a router entered by hand asks nothing of the agent |
| `OnboardingOutcomes.EditsExactly` | services/router_service.py:80-103 | an edit of an onboarded router changes the address and slug it names, unless another router has the slug |
| `OnboardingOutcomes.DirectRouterIsConfigured` | services/router_service.py:52-80 | a router entered by hand is configured at once, with no token |
| `OnboardingServices.OnboardingService.ProvisionPeer` | services/vpn_agent_service.py:72-77 | one create call of the agent, with the answer its caller sees |
| `OnboardingServices.OnboardingService.RevokePeer` | services/vpn_agent_service.py:80-82 | one delete call of the agent |
| `OnboardingServices.OnboardingService.CreateOnboarding` | services/onboarding_service.py:305-385 | creation with its rollback and revocation is a run of the saga |
| `OnboardingServices.OnboardingService.ClaimOnboarding` | services/onboarding_service.py:445-477 | the claim, branch by branch, is one step of the saga with its answer |
| `OnboardingServices.OnboardingService.ExpireOnboardingDownloads` | services/onboarding_service.py:435-442 | expiry is one step, and its count is the number of rows changed |
| `OnboardingServices.OnboardingService.ConsumeOnboardingScript` | services/onboarding_service.py:409-432 | the script handed out, and when there is none, the format of the token included |
| `OnboardingServices.OnboardingService.DeleteRouter` | services/router_service.py:106-182 | deletion and the revocation after its commit are two steps of the saga |
| `RosQuoting.QuoteIsOnePass` | services/onboarding_service.py:34-35 | the three ordered replacements are one pass that puts a backslash before every special character |
| `RosQuoting.QuotedReadsBack` | services/onboarding_service.py:34-35 | a reader started at a quoted value consumes exactly that literal and returns the value |
| `RosQuoting.QuoteIsInjective` | services/onboarding_service.py:34-35 | two values never print the same |
| `RosQuoting.PlainReadsBack` | services/onboarding_service.py:395 | text put inside quotes without escaping reads back exactly when it has no special character |
| `RosQuoting.NestedPeels` | services/onboarding_service.py:143-151 | a value quoted any number of times over is recovered by reading as many times |
| `RosQuoting.FetchParsesTheCommand` | services/onboarding_service.py:143-151 | `:parse` is given exactly the command, and the text goes on after its closing quote |
| `RosQuoting.InstallCommandReadsBack` | services/onboarding_service.py:389-406 | the two literals of the installer line say the file name and the download command |
| `RosQuoting.DownloadCommandReadsBack` | services/onboarding_service.py:393-397 | inside that command the URL reads back whatever it holds, the bare token exactly when it is plain |
| `RosQuoting.AcceptedTokenReadsBack` | services/onboarding_service.py:416 | the token of every script that can be downloaded is plain, so its header reads back |
| `AccessTables.LookupAfterUpsert` | services/mikrotik_service.py:184-208 | an upsert rewrites the line of its name and no other; names stay unique |
| `AccessTables.CallsFailExactly` | services/mikrotik_service.py:184-240 | an upsert is refused exactly when the router cannot be reached or may not replace a line that is there, a switch exactly when it cannot be reached or has no such line |
| `AccessTables.LookupAfterSet` | services/mikrotik_service.py:234-240 | enabling or disabling changes that flag of that line and no other |
| `AccessTables.WithoutKeepsOthers` | services/mikrotik_service.py:243-247 | deletion removes the name and keeps every other line |
| `AccessTables.ProvisionAgrees` | services/access_service.py:237-276 | provisioning on the router and writing the row keeps the two stores in agreement |
| `AccessTables.EnableAgrees` | services/access_service.py:175-201 | so does switching an account on or off |
| `AccessTables.DeleteAgrees` | services/access_service.py:204-221 | so does deleting one |
| `UserTables.UserTable.FindUser` | services/mikrotik_service.py:194 | the first line of a name |
| `UserTables.UserTable.UpsertUser` | services/mikrotik_service.py:184-231 | the upsert in place, with its refusal and the limit it keeps |
| `UserTables.UserTable.SetUserEnabled` | services/mikrotik_service.py:234-240 | the switch in place, and when it raises |
| `UserTables.UserTable.DeleteUser` | services/mikrotik_service.py:243-247 | the loop removes every line of the name and nothing else |
| `PaymentAccess.StoresAgree` | services/access_service.py:92-407 | two-store agreement in every run, whichever router calls fail: each customer row has exactly one router user of its name, password and state |
| `PaymentAccess.StepKeepsInv` | services/access_service.py:92-407 | every step keeps it |
| `PaymentAccess.CompleteKeepsInv` | services/payment_service.py:427-481 | a completion keeps it, its failure write included |
| `PaymentAccess.PrepareKeepsInv` | services/access_service.py:237-276 | a preparation keeps it |
| `PaymentAccess.CleanupKeepsInv` | services/access_service.py:279-299 | a cleanup keeps it |
| `PaymentAccess.ExpireAccessKeepsInv` | services/maintenance_service.py:12-37 | the expiry job keeps it |
| `PaymentStrangers.StrangersAreLeftAlone` | services/mikrotik_service.py:184-250 | in every run the router users no customer row names stay the same lines in the same order |
| `PaymentServed.PreparationServes` | services/access_service.py:237-276 | a preparation that reaches the router leaves an enabled line with the session's credentials and the profile and limit of its package; one that does not leaves everything but its task |
| `PaymentServed.CompletionServes` | services/access_service.py:341-407 | what a completion leaves: the router's line with the account's password and the profile of the package that was paid, and the row with that package and a full validity, from the later of expiry and present for PPPoE; all others as they were |
| `PaymentServed.CompletionMisses` | services/payment_service.py:470-479 | a completion that cannot provision writes its status and nothing else |
| `PaymentServed.CredentialsAreOpen` | services/access_service.py:224-234 | a session without a stored password gets the fresh one and its browser may see it for half an hour; stored ones are kept with their time |
| `PaymentServed.CreationServes` | services/access_service.py:92-172 | an operator's customer is created on both sides, with the package's profile, limit and a full validity, or on neither, and when |
| `PaymentServed.SwitchServes` | services/access_service.py:175-201 | a switch takes effect on both sides exactly when there is such an account and its router answers |
| `PaymentServed.DeletionServes` | services/access_service.py:204-221 | so does a deletion |
| `PaymentServed.CleanupServes` | services/access_service.py:279-299 | a cleanup removes the account on both sides and the session's password with it, or changes nothing |
| `PaymentServed.LinesFollowTheRows` | services/access_service.py:92-407 | in every run that leaves the terms of existing packages alone, whatever fails, the router's line of every customer has the password and state of its row and the profile and limit of the package sold last |
| `PaymentMoves.StepMoves` | services/payment_service.py:180-584 | every step: what was bought never changes, only a completion provisions, only an overtaken initiation takes the status back |
| `PaymentMoves.StepCreates` | services/payment_service.py:221-240 | only a new request adds a session, as created |
| `PaymentLedger.StepWrites` | services/payment_service.py:451-466 | only a completion writes the ledger, one row, for its own session |
| `PaymentLedger.CompleteAddsRow` | services/payment_service.py:451-466 | the row says the session's amount, package and account, and is added once |
| `PaymentLedger.LedgerBalances` | services/payment_service.py:251-584 | in every run a session is provisioned exactly when one ledger row carries it, and the ledger total is the sum of the amounts of provisioned sessions |
| `PaymentLedger.RunKeepsLedger` | services/payment_service.py:251-584 | every run from a world in order ends in one, so the results above chain over runs |
| `PaymentLedger.MpesaSessionsAreLedgered` | services/payment_service.py:371-481 | from the start, in every run, an M-Pesa session has one ledger row if provisioned and none otherwise |
| `PaymentLedger.ProvisionedIsFinal` | services/payment_service.py:371-584 | for M-Pesa, provisioned is never left |
| `PaymentLedger.ProvisionedIsLeftExactly` | services/payment_service.py:276-286 | without the ordering assumption a step leaves provisioned exactly when it is the initiation's last write, and then for Kopo Kopo only |
| `PaymentLedger.ProvisionedStaysExactly` | services/payment_service.py:262-286 | over every run, a provisioned session is provisioned after each step if and only if no step is the late last write of its initiation |
| `PaymentLedger.OvertakenKopoPaymentRenewsTwice` | services/payment_service.py:403-424 | a run from the empty system in which a Kopo Kopo payment is taken back to pending and then renews its account twice for one ledger row |
| `PaymentRenewals.CompleteGrants` | services/access_service.py:341-407 | what a successful completion grants, and that a failed one changes neither store |
| `PaymentRenewals.ExpiryIsTheFold` | services/access_service.py:392-407 | in every run an account's expiry is the fold of `max(expiry, now) + validity` over the sessions provisioned for it |
| `PaymentRenewals.EachSessionRenewsOnce` | services/payment_service.py:427-500 | each covered session renews its account once if it became provisioned in the run, otherwise never |
| `PaymentRenewals.RenewalsAreNotLost` | services/access_service.py:403 | the fold gains at least all minutes sold, and runs for the last renewal's full validity |
| `PaymentHotspot.AccountsAreFinalised` | services/access_service.py:251-276 | in every run a prepared account has an expiry exactly when its session is provisioned |
| `PaymentHotspot.PaidAccessLasts` | services/access_service.py:279-338 | until an operator deletes it, a paid account keeps password, package and expiry, and its router user, in every run |
| `PaymentWiped.CompletionPays` | services/access_service.py:341-390 | a completion that can provision leaves a hotspot account with its package, the password of the session and an expiry |
| `PaymentWiped.StepKeepsPaidExactly` | services/access_service.py:237-276 | of all steps but an operator's deletion only an access task that comes late ends a paid account, and only for Kopo Kopo |
| `PaymentWiped.PaidAccessLastsExactly` | services/access_service.py:237-276 | over every run, a paid account keeps password, package and expiry after each step if and only if its access task never comes late |
| `PaymentWiped.PaidAccountIsRemoved` | services/access_service.py:275 | a run from the empty system in which a guest pays by Kopo Kopo and ends without an account, with the ledger row kept |
| `PaymentHotspot.CleanupSparesPaidAccess` | services/access_service.py:279-299 | cleanup removes one account exactly when it belongs to a failed, never provisioned session; all others stay |
| `PaymentHotspot.CompletionSucceedsExactly` | services/access_service.py:341-407 | a verified success provisions exactly when the router answers or the prepared account is active; PPPoE also needs its account |
| `PaymentHotspot.FailedSessionRecovers` | services/payment_service.py:37-39 | from any reachable failed session, cleaned or not, such a success ends provisioned under the session's own name with full validity, ledger row and router user |
| `PaymentWindow.LimitHoldsInEveryWindow` | services/payment_service.py:210-219 | in every run no closed window of the configured length holds more sessions of one phone or client than the limit |
| `PaymentWindow.KeysStayUnique` | services/payment_service.py:204-208 | in every run no two sessions share a router and an idempotency key |
| `PaymentWindow.ReplayStartsNothing` | services/payment_service.py:204-208 | whatever happened since, a repeated key creates nothing and asks the provider nothing; the same request gets the first session |
| `PaymentRequests.InvalidAnswers` | services/payment_service.py:193-202 | each of the four first refusals is given exactly when its check is the first to fail, and only a start changes anything |
| `PaymentRequests.UsedKeyAnswers` | services/payment_service.py:204-208 | a used key is answered with its session for the same package, phone and account, and refused otherwise |
| `PaymentRequests.NewKeyAnswers` | services/payment_service.py:210-240 | with a new key a valid request is refused exactly when the sessions of the window by this phone or from this address number at least the limit, and otherwise starts a session for the package's price that lives the configured minutes |
| `PaymentRequests.QuietPhoneMayStart` | services/payment_service.py:210-219 | whoever has started nothing within the window may start, however many sessions lie before it |
| `PaymentRequests.StartedSessionExpires` | services/payment_service.py:570-584 | a started session fails in the expiry job once its minutes have passed and not earlier |
| `PaymentJobs.MpesaCallbackProvisionsExactly` | services/payment_service.py:371-400 | whatever others do during the status query short of provisioning the session, an M-Pesa callback provisions it exactly when it reports a confirmed success with its amount and phone and access can be provisioned |
| `PaymentJobs.KopoCallbackProvisionsExactly` | services/payment_service.py:403-424 | the same for Kopo Kopo, whose callback needs no query but completes in a second transaction |
| `PaymentJobs.ReconcileIsARun` | services/payment_service.py:543-567 | the reconciliation loop, with the steps of others at each of its queries, is a run of the system |
| `PaymentJobs.ReconciliationSettles` | services/payment_service.py:515-567 | whatever others do while it waits, a job that runs to its end leaves every paid candidate provisioned and counts right; a job cut short leaves one waiting for a retry |
| `PaymentJobs.CleanupCounts` | services/access_service.py:324-338 | the cleanup job among the steps of others is a run, and its count is the number of customer rows it removed itself |
| `PaymentJobs.CleanupTriesEveryRow` | services/access_service.py:324-338 | undisturbed, the job counts every row with an account to remove as cleaned or as failed |
| `PaymentJobs.ExpirySwitchesOffExactly` | services/maintenance_service.py:12-37 | the expiry job switches off exactly the due accounts of routers that answer, and changes nothing else |
| `PaymentOutcomes.FailureFails` | services/payment_service.py:380-385 | an M-Pesa callback that reports no success fails the open session it names, and changes nothing else |
| `PaymentOutcomes.MismatchIsReviewed` | services/payment_service.py:391-399 | a success with another amount or phone, or one the query denies, goes to review, whatever others did meanwhile short of provisioning it |
| `PaymentOutcomes.SuccessCompletes` | services/payment_service.py:391-400 | a matching, confirmed success ends provisioned or, if access cannot be provisioned, waiting for a retry |
| `PaymentOutcomes.FailedQueryWaits` | services/payment_service.py:395-396 | a query that raises leaves the session to later answers |
| `PaymentOutcomes.SuccessAfterFailure` | services/payment_service.py:37-39 | after a callback without success, a later matching success provisions exactly when access can be provisioned |
| `PaymentOutcomes.KopoCallbackSettles` | services/payment_service.py:403-424 | a Kopo Kopo callback fails, reviews or completes an open session |
| `PaymentOutcomes.ClosedIsLeftAlone` | services/payment_service.py:39 | provisioned sessions and those in review are left alone by callbacks, retries and polls |
| `PaymentOutcomes.FailedSessionIsCleaned` | services/access_service.py:279-299 | whatever failed a hotspot session, a cleanup that reaches the router removes its unpaid account on both sides |
| `PaymentOutcomes.FailureIsCleaned` | services/payment_service.py:380-385 | so it does after a callback without success |
| `PaymentOutcomes.InitiationSettles` | services/payment_service.py:262-286 | the provider's request id makes the session pending, its failure fails one that is still created |
| `PaymentOutcomes.ExpiryFails` | services/payment_service.py:570-584 | the expiry job fails exactly the created and pending sessions whose time is up |
| `PaymentOutcomes.PollSettles` | services/payment_service.py:335-356 | when a poll is answered, when it fails a session, and when it asks the provider |
| `PaymentOutcomes.PollsAreThrottled` | services/payment_service.py:344-353 | within five seconds of a query or an unpaid answer no poll asks again |
| `PaymentOutcomes.AnswersSettle` | services/payment_service.py:303-326 | an unpaid answer or none moves no session, a paid one completes it |
| `PaymentOutcomes.RetrySettles` | services/payment_service.py:484-500 | a retry completes exactly the sessions left for one, with the stored receipt |
| `PaymentOutcomes.DeletionSettles` | services/router_service.py:126-152 | a router's deletion closes its portal, retires its packages, fails its unpaid sessions, sends those paid without access to review, and touches nothing else |
| `PaymentOutcomes.AccessEndsOnTime` | services/maintenance_service.py:12-37 | the expiry job switches a reachable account off at its expiry, not before, and never one without |
| `PaymentServices.PaymentService.CreatePublicPayment` | services/payment_service.py:186-249 | the checks in their order, with every refusal, and the row inserted |
| `PaymentServices.PaymentService.PaymentCredentials` | services/access_service.py:224-234 | stored credentials are kept, missing ones derived |
| `PaymentServices.PaymentService.PreparePaymentAccess` | services/payment_service.py:138-160 | the access task, with its rollback |
| `PaymentServices.PaymentService.FinishPaymentInitiation` | services/payment_service.py:262-286 | the last write of the request, for a request id and for a failure |
| `PaymentServices.PaymentService.ProvisionHotspotSession` | services/access_service.py:345-390 | the hotspot half, with its three cases |
| `PaymentServices.PaymentService.ProvisionPppoeSession` | services/access_service.py:392-407 | the PPPoE half |
| `PaymentServices.PaymentService.CompletePayment` | services/payment_service.py:427-481 | both halves, the ledger, the rollback and the failure write, and when it raises; for a session that may complete the two stores still agree |
| `PaymentServices.PaymentService.MarkManualReview` | services/payment_service.py:503-512 | not for a provisioned session |
| `PaymentServices.PaymentService.ProcessMpesaCallback` | services/payment_service.py:371-400 | the callback, with what others do between its transactions, is a run of the system and keeps the invariant |
| `PaymentServices.PaymentService.ProcessKopokopoCallback` | services/payment_service.py:403-424 | the callback, with what others do between its transactions, is a run of the system and keeps the invariant |
| `PaymentServices.PaymentService.TakeAnswer` | services/payment_service.py:303-326 | what follows a status query |
| `PaymentServices.PaymentService.PollSession` | services/payment_service.py:329-356 | the first transaction of a poll and the query it claims |
| `PaymentServices.PaymentService.GetPublicPayment` | services/payment_service.py:329-368 | a poll, with what others do while it asks, is a run of the system, and when it answers with which status |
| `PaymentServices.PaymentService.RetryProvisioning` | services/payment_service.py:484-500 | when a retry is refused, and that otherwise it is a completion step of the system with the stored receipt: the statuses it accepts are those of sessions that may complete |
| `PaymentServices.PaymentService.ReconcilePendingPayments` | services/payment_service.py:540-567 | the loop with its counters and the steps of others at each query, cut short when a completion raises |
| `PaymentServices.PaymentService.ExpirePaymentSessions` | services/payment_service.py:570-584 | every unpaid session past its time fails, and the count is theirs |
| `PaymentServices.PaymentService.CleanupPreparedHotspotSession` | services/access_service.py:279-299 | one cleanup, and when it raises |
| `PaymentServices.PaymentService.CleanupFailedPreparedSessions` | services/access_service.py:324-338 | the loop with its counters and the steps of others between its rows |
| `PaymentServices.PaymentService.ExpireDueAccess` | services/maintenance_service.py:20-35 | the loops with their counters: as many disabled as are off afterwards |
| `PaymentServices.PaymentService.CreateServiceCustomer` | services/access_service.py:92-172 | creation by an operator and its refusals |
| `PaymentServices.PaymentService.SetCustomerEnabled` | services/access_service.py:175-201 | switching an account, and when it fails |
| `PaymentServices.PaymentService.DeleteCustomer` | services/access_service.py:204-221 | deleting an account, and when it fails |
| `PaymentServices.PaymentService.RetireRouter` | services/router_service.py:126-158 | the bulk updates of a deletion |
| `PaymentRetired.DeletedRouterIsLeftAlone` | services/router_service.py:123-152 | once a router is deleted, in every run no payment is started for it and its users stay as they were |
| `PaymentRetired.NothingAfterDeletion` | services/router_service.py:106-182 | in every run that begins with its deletion, a router gets no session and its users keep the lines they had before |
| `PaymentRetired.PackagesStayPlaced` | database/models.py:66-90 | in every run every package is of a router in the table |
| `LoginLock.Account.Authenticate` | mono.py:249-277 | the counter and the lock, against the specification of one attempt |
| `LoginLock.GuessingIsBounded` | mono.py:259-267 | with ordered attempts and no login the counter stays from 0 to 4 and no half-open window of 15 minutes holds more than five counted wrong passwords |
| `LoginLock.ClosedWindowHoldsSix` | mono.py:259-267 | a closed window can hold six |
| `LoginLock.FifthWrongLocks` | mono.py:259-267 | four wrong passwords lock nothing, the fifth locks for 15 minutes in which wrong ones are turned away, after which they count from one |
| `LoginLock.LockNeverKeepsTheOperatorOut` | mono.py:257-275 | after any run of attempts, locked or not, the right password gets an active operator in and clears counter and lock, a disabled one never, and no wrong one |
| `PortalRefresh.RouterFiles.CollectTargets` | services/mikrotik_service.py:266-292 | the loop over the servers collects exactly the files to replace |
| `PortalRefresh.RouterFiles.PushPages` | services/mikrotik_service.py:300-304 | the loop that writes the page, also when the router rejects a write |
| `PortalRefresh.RouterFiles.RefreshManagedLogin` | services/mikrotik_service.py:257-305 | the whole refresh, its two refusals and its count |
| `PortalRefresh.RefreshTouchesExactlyManagedPages` | services/mikrotik_service.py:277-292 | the page is written to exactly the login pages of enabled servers that show their owner; all other files stay |
| `PortalOwnership.OwnPagesAreReplaced` | services/mikrotik_service.py:257-305 | the same on the text: replaced are exactly the files named login.html in the stripped override or own directory of an enabled server's last profile row, with a backup beside them, the first part of the router's id in the directory, or the marker in the document |
| `PortalPage.PageCarriesTheMarker` | services/onboarding_service.py:100-140 | the page built for any URL carries the marker, whatever the fixed text of its body says |
| `PortalPage.UrlReadsBack` | services/onboarding_service.py:108 | the URL behind the page's escaping reads back as itself, whatever ampersands and entities it holds |
| `PortalPage.PortalRefreshIsIdempotent` | services/mikrotik_service.py:257-305 | after a refresh with the page built for any URL, on any router and wherever it was broken off, a second one chooses exactly the same files, and whatever page it writes leaves the files as if it had been the only one |
| `PortalRefresh.RefreshIsIdempotent` | services/mikrotik_service.py:257-305 | the same for any page that carries the marker |

## Left out

- HTTP, FastAPI, SQLAlchemy, sockets, file locks, temporary files, backups and their pruning in `_write`, and process start-up: steps are atomic, clocks and answers are inputs.
- Daraja, Kopo Kopo and RouterOS wire formats; result codes, descriptions, log rows and masked phone numbers of payment rows.
- SHA-256, HMAC, bcrypt, Fernet and JWT: tokens stand for their hashes and passwords for their ciphertext, a request's three fields for their fingerprint, and whether a signature or password is right is an input.
- `updated_at` is set by every write of a session; the change detection that lets SQLAlchemy skip a write which changes no column is not modelled.
- The selection, order and limit of the rows the reconciliation, cleanup and expiry jobs query: the rows are inputs that satisfy the query's conditions.
- The removal of active hotspot and PPPoE connections beside a user's line.
- Who may call an operation: ownership checks of the operator's endpoints.
- Interleavings inside `complete_payment` between its rollback and its failure write.
- AgentServers.AgentServer.Handle: whether the size is allowed, the JSON is well formed and the signature is right are inputs, because JSON and HMAC are not modelled; a time stamp that is no integer makes a request that is not well formed.
- ChapSecrets.OtherLinesStay: speaks of the lines as the agent splits them; what happens to lines as newlines separate them is stated by SecretsText.RewriteKeepsOthersExactly and SecretsText.RewriteKeepsOthersInOrder.
- PaymentServices.PaymentService.CreateServiceCustomer: the phone number, amount, mobile number and address of a customer row are not modelled, because no other operation reads them.
- PaymentServices.PaymentService.RetireRouter: the updates are written as loops over the rows, where the source lets the database do them.
- PaymentServices.PaymentService.ExpireDueAccess: the hotspot loop and the PPPoE loop are one loop over both lists in turn, with no steps of others between two rows; the switch of one row alone is a step of the system.
- PaymentLedger.LedgerBalances: for Kopo Kopo sessions only under `TimelyRun`, because without it the statement is false, as OvertakenKopoPaymentRenewsTwice shows.
- PortalPage.UrlReadsBack: the reader knows ampersands only, the one character the page escapes; a URL with a double quote would end the attribute, and the code builds none.
- `binl2b64` and the Base64 digests: the index `i>>5+1` parses as `i>>6`, so they encode nothing useful.
- The meaning of the generated RouterOS script beyond the quoting of its strings.
- Listing and serialising functions, settings validation, migrations, traffic monitoring, and all other pages and styles.
