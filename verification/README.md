# Verified models of the agent datacenter

A Dafny project beside the repository. It models the parts of the agent
datacenter whose correctness depends on state, order or recursion, and proves
what they keep:

- `Hub.dfy`: the WebSocket session hub. Every section under the client lock is
  one atomic step; theorems hold for every interleaving of the steps.
- `Merge.dfy`, `Profiles.dfy`, `ProfileFiles.dfy`: the deep merge of capability
  profiles, the replacement markers, loading through the `inherits` graph, and
  what that means for the files as they are written.
- `Mailbox.dfy`, `MailRuns.dfy`: the in-memory mail store, its purge, and what
  readers get over whole runs.
- `Broker.dfy`, `Manifests.dfy`, `Channels.dfy`, `Announce.dfy`,
  `AnnounceRuns.dfy`, `AnnounceReads.dfy`: the announce protocol, from an identity to a manifest, through the listener and its
  mailboxes, to the manifest that a client caches.
- `Invalidator.dfy`: the snapshot differ that tells clients to announce again.
- `Router.dfy`: longest-prefix resolution of `comms://` addresses.
- `FailureWindow.dfy`, `Rack.dfy`: sliding-window blocking, and the device
  registry over skeleton restarts.
- `Chunking.dfy`, `Slate.dfy`, `Sessions.dfy`, `SessionText.dfy`: greedy chunking,
  the idempotent slate update, the printer and parser of `sessions.md`, and what
  the parser makes of any text.
- `Addresses.dfy`, `Counting.dfy`, `Outcomes.dfy`, `Text.dfy`, `WordText.dfy`: shared
  helpers, among them what reading a file in text mode does to line ends.

Code that changes state is a class or a method with its loops, proved against a
specification function; the theorems are lemmas about those functions and about
runs built from them. Clock readings, the reachability of devices, failing
mailboxes, the profile directory, the registry listing and etags come from
outside as parameters. `dafny verify dfyconfig.toml` checks everything.

Where the code and its documentation differ, the model follows the code:

- A browser that drops while it is being greeted skips the clean-up section, so
  its queue stays subscribed (`Hub.AbandonedClientStaysListed`); so does one whose
  handler is cancelled (`Hub.GoneMeansUnlisted`).
- The deep merge is not associative when a leaf lies between two dicts
  (`Merge.GroupingMatters`); `Merge.MergeAssociative` gives the exact condition.
- The merge can build a marker out of two layers that hold none
  (`Merge.StrayKeysMakeMarker`; `Merge.MergeNoMarkers` says when), so
  `Profiles.Flattening` asks for layers that make none. Such a marker can
  even cut off one that the child profile meant to force (`Merge.StrayKeyCutsMarker`).
- Deleting a mailbox keeps its seen set, so new mail can be lost
  (`MailRuns.DeleteLosesMail`); `MailRuns.FetchReturnsTheNew` says when, over runs.
- The listener's docstring promises an error reply where dispatch fails. A
  channel name that cannot be a dictionary key, or a manifest that cannot be
  written as JSON, raises out of the pump instead, and the rest of the batch is
  lost (`AnnounceRuns.UnwritableManifestLosesReplies`).
- A registry event is meant for all clients, but read status is shared, so only
  the first client that drains the mailbox announces again
  (`AnnounceReads.RegistryChangeReachesOneClient`); `AnnounceReads.DrainAnnouncesIff`
  says exactly which drains do.
- An empty in-flight note in `sessions.md` reads back as NONE
  (`Sessions.SessionsRoundTrip`), and a carriage return in a field is read as a
  newline, which can even start another session (`Sessions.ReturnSplitsSession`).
- A slate whose last line break is not a plain newline gains two lines
  (`Slate.AddsAtMostOneLine`). A result that ends in a carriage return breaks the
  entry in two and the idempotence with it (`Slate.ReturnInResult`).
- A profile named `registry` shares its invalidation target with the device
  registry, so it can be announced twice in one pump
  (`Invalidator.RegistryAnnouncedTwice`; `Invalidator.AnnouncedOnce` says when).
- A negative word limit leaves a text in one chunk, and a limit of zero is an
  error (`Chunking.ChunkText`).
- With a threshold below one the bus is not kept below the threshold
  (`FailureWindow.UnblockedMeansFewFailures`).

## Model

| member | source | states |
|---|---|---|
| Hub.CanonicalNames | devices/web_server/server.py:431-437 | two session names reach the same session exactly when they agree up to the scheme and the default; canonical names are fixed points |
| Hub.WebHub.AddToHistory | devices/web_server/server.py:353-359 | records a message in the session's capped history and touches nothing else |
| Hub.WebHub.Subscribe | devices/web_server/server.py:836-842 | a new connection is listed in the shared session and recorded there |
| Hub.WebHub.SwitchSession | devices/web_server/server.py:894-907 | one section leaves the old list, enters the new one and reads its history |
| Hub.WebHub.Disconnect | devices/web_server/server.py:984-989 | the queue leaves the list of its recorded session, and the record goes |
| Hub.WebHub.SnapshotAll | devices/web_server/server.py:418-425 | the snapshot is the concatenation of the lists of all sessions, each once, in some order |
| Hub.Membership | devices/web_server/server.py:836-846 | in every reachable state a connection's queue is listed exactly once, in its recorded session, unless it was cleaned up; then it is listed nowhere |
| Hub.GoneMeansUnlisted | devices/web_server/server.py:849-989 | a finished connection is off every list exactly when neither a failed greeting nor a cancellation kept it from the clean-up section |
| Hub.AbandonedClientStaysListed | devices/web_server/server.py:849-869 | a concrete run in which a connection that dropped during its greeting stays subscribed |
| Hub.BroadcastReachesEachOnce | devices/web_server/server.py:418-425 | an all-session broadcast puts the payload exactly once on every listed queue, whatever the order of the sessions, and on no cleaned-up one |
| Hub.HistoryIsLastFifty | devices/web_server/server.py:353-359 | over any run a session's history is the whole list of its recorded messages, or the last 50 of them once there are more |
| Hub.DeliverCounts | devices/web_server/server.py:411-415 | delivery appends one copy for each occurrence of a queue in the snapshot and changes no other queue |
| Hub.NoGap | devices/web_server/server.py:362-415 | for every interleaving, a client that joined and stayed has each message broadcast in its session in its queue or its history snapshot, unless 50 later ones were recorded before the snapshot |
| Hub.SnapshotWindow | devices/web_server/server.py:899-907 | a message recorded before the snapshot is in it exactly when fewer than 50 later ones had been recorded |
| Merge.MergeProfiles | agent_datacenter/announce/profile.py:156-180 | the loop over the overlay computes the recursive merge |
| Merge.MarkerKeys | agent_datacenter/announce/profile.py:148-153 | a marker is a mapping with the replacement key set to true and a value |
| Merge.MergeByPath | agent_datacenter/announce/profile.py:156-180 | for any two layers the merge has at a key path the overlay's entry, or else the base's where the overlay has no leaf above, exactly when no marker is made on the way or that rule finds nothing there |
| Merge.MergeNoMarkers | agent_datacenter/announce/profile.py:148-180 | two layers without markers merge into one without markers exactly when neither they nor common subtrees of them make one: the merged reserved key true and the payload key in either |
| Merge.OnlyMarkersMakeNone | agent_datacenter/announce/profile.py:148-180 | layers whose reserved keys all stand in markers, nested payloads included, make no new marker |
| Merge.SameAtEveryPath | agent_datacenter/announce/profile.py:156-180 | two profiles with the same entry at every path are equal, so the path reading determines the merge |
| Merge.MergeAbsorbs | agent_datacenter/announce/profile.py:156-180 | merging below a layer leaves that layer unchanged exactly when it covers every path of what is below |
| Merge.MergeAssociative | agent_datacenter/announce/profile.py:156-180 | for any three layers the two groupings agree exactly when no dict of the first is cut by a leaf of the second and reopened by the third, and where neighbours make a marker the layers cover what the other grouping lets through |
| Merge.OnlySandwichesMatter | agent_datacenter/announce/profile.py:156-180 | for neighbours that make no markers only the dict, leaf, dict case is left of that condition |
| Merge.GroupingMatters | agent_datacenter/announce/profile.py:156-180 | concrete layers for which the two groupings differ |
| Merge.SameKindsNoSandwich | agent_datacenter/announce/profile.py:156-180 | layers that agree on which paths are dicts meet the associativity condition |
| Merge.ResolveMarkers | agent_datacenter/announce/profile.py:183-193 | the loop over the items computes the recursive resolution |
| Merge.ResolveFixesMarkerFree | agent_datacenter/announce/profile.py:183-193 | resolving changes a profile exactly when it holds a marker below its top level, outside lists |
| Merge.PlainMergeByPath | agent_datacenter/announce/profile.py:156-180 | for layers that agree on kinds and make no marker the merge has at every path the overlay's entry, or else the base's |
| Merge.StrayKeysMakeMarker | agent_datacenter/announce/profile.py:148-180 | concrete marker-free layers whose merge is a marker |
| Merge.ResolveCleans | agent_datacenter/announce/profile.py:183-193 | with only well-formed markers and clean payloads, the result has no trace of the reserved key outside lists |
| Merge.MarkerForcesPayload | agent_datacenter/announce/profile.py:148-193 | whatever the base holds, a marker in the overlay forces its payload at its path, unless merging makes a marker above it; then the value comes out of the payload of the first one made |
| Merge.OnlyMarkersLeaveOpen | agent_datacenter/announce/profile.py:148-193 | no marker is made above it when the reserved key occurs only in markers, whatever their payloads |
| Merge.StrayKeyCutsMarker | agent_datacenter/announce/profile.py:148-193 | concrete layers in which a stray reserved key of the base cuts a marker of the overlay off |
| Profiles.LoadProfile | agent_datacenter/announce/profile.py:67-123 | the recursive loader terminates on every finite directory and computes the specified result or error |
| Profiles.LoadSucceedsIff | agent_datacenter/announce/profile.py:84-142 | loading succeeds exactly when every reachable profile exists, is valid and has parents the model can follow, and no reachable path returns to a profile on it |
| Profiles.AcyclicGraphLoads | agent_datacenter/announce/profile.py:84-117 | a profile all of whose reachable edges go down some rank, and whose reachable profiles are valid, always loads, so diamonds are never rejected |
| Profiles.LoadErrorIsReal | agent_datacenter/announce/profile.py:84-142 | a cycle error spells out a real cycle of the graph, and every other error names a reachable profile with that fault, or one whose parents the model does not follow |
| Profiles.Flattening | agent_datacenter/announce/profile.py:107-123 | for layers that hold no markers, make none and agree on kinds, loading equals the left fold of the merge over the depth-first ancestors with repeats, up to the inherits key |
| Profiles.CleanIsCompatible | agent_datacenter/announce/profile.py:148-180 | layers without the reserved key that agree on kinds meet that condition |
| Profiles.LoadedByPath | agent_datacenter/announce/profile.py:107-123 | such a profile has at every key path what the last layer of the whole graph that has anything there has |
| Profiles.LoadedMarkers | agent_datacenter/announce/profile.py:107-123 | if the reserved key occurs only in well-formed markers with clean payloads, a loaded profile has no marker outside lists |
| Profiles.LoadedPayload | agent_datacenter/announce/profile.py:107-193 | each marker of a profile's own file forces its payload against everything inherited, whatever that is, unless merging the two makes a marker above it; then the value comes out of that one |
| Profiles.InheritedLeavesOpen | agent_datacenter/announce/profile.py:107-193 | none is made when the reserved key occurs only in markers in all layers, payloads included |
| ProfileFiles.ParentsAreDeclared | agent_datacenter/announce/profile.py:107-113 | the parents of a profile are the strings of its inherits list in order, the characters of a string, and none for the empty and false forms; anything else has no parents to follow |
| ProfileFiles.ValidDocIff | agent_datacenter/announce/profile.py:90-107 | a profile is valid exactly when its file is there, is a mapping, has both required fields, and declares parents |
| ProfileFiles.LoadedFromParents | agent_datacenter/announce/profile.py:107-123 | loading a file with parents merges the loaded parents left to right and the file over them, resolves the markers and empties inherits |
| ProfileFiles.ParentsAreStripped | agent_datacenter/announce/profile.py:119-123 | a profile loaded from parents has an empty inherits list |
| ProfileFiles.LaterParentWins | agent_datacenter/announce/profile.py:107-123 | in a directory of compatible files the file decides each path; where it is silent the last declared parent with anything there does, whatever the parents inherit |
| ProfileFiles.SecondParentWins | agent_datacenter/announce/profile.py:107-123 | for an inherits list of a and b and a file silent at the path, the entry is that of b if b has one and else that of a |
| ProfileFiles.SecondCharacterWins | agent_datacenter/announce/profile.py:107-123 | the same for an inherits string of two characters |
| ProfileFiles.NoParents | agent_datacenter/announce/profile.py:107-109 | a file whose inherits is missing, null, false, zero or empty loads as its own resolution |
| Mailbox.PurgeBox | bus/imap_server.py:386-425 | the two index loops compute the purged list and the renumbered seen set, and count what went; a message stays exactly when its date cannot be read or is not before the cutoff |
| Mailbox.PurgeRefinesFilter | bus/imap_server.py:386-425 | seen as a list of flagged messages, a purge drops exactly the expired ones and keeps the order and every flag |
| Mailbox.PurgeKeepsRecent | bus/imap_server.py:386-425 | a flagged message is in the mailbox after a purge exactly when it was before and its date cannot be read or is at least the cutoff |
| Mailbox.PurgeChangesNothingIff | bus/imap_server.py:386-425 | a purge leaves a mailbox as it is exactly when no readable date in it is before the cutoff |
| Mailbox.PurgeTwice | bus/imap_server.py:370-425 | a purge followed by one with a later cutoff leaves what the later one alone leaves |
| Mailbox.PurgeStoreTwice | bus/imap_server.py:370-425 | the same for every mailbox of the store |
| Mailbox.PurgeTotalsAdd | bus/imap_server.py:370-425 | and the totals of the two purges add up to the total of the later one alone |
| Mailbox.PurgeTakesNothingIff | bus/imap_server.py:370-425 | the total of a purge is zero exactly when no readable date in any mailbox is before the cutoff |
| Mailbox.IMAPServer.CreateMailbox | bus/imap_server.py:316-321 | an existing mailbox keeps its messages, a new one is empty |
| Mailbox.IMAPServer.DeleteMailbox | bus/imap_server.py:323-329 | the messages go and the seen set stays |
| Mailbox.IMAPServer.Append | bus/imap_server.py:337-345 | one mailbox grows by the message at its end |
| Mailbox.IMAPServer.UnseenCount | bus/imap_server.py:347-353 | the count is the number of messages that a fetch would return |
| Mailbox.CollectUnseen | bus/imap_server.py:355-368 | the loop over the messages collects the unread ones in order and marks every index |
| Mailbox.IMAPServer.FetchUnseen | bus/imap_server.py:355-368 | returns the unread messages in order and marks every message read |
| Mailbox.IMAPServer.PurgeOldMessages | bus/imap_server.py:370-425 | purges every mailbox; the total is the number of messages that left the store, and is zero exactly when no readable date is before the cutoff |
| MailRuns.SeenIsPrefix | bus/imap_server.py:337-421 | over any run of create, append, count, fetch, purge and deletions of other mailboxes the seen set is a prefix of the indices |
| MailRuns.ExactlyOnceInOrder | bus/imap_server.py:316-421 | over any run, deletions included, the fetches return a subsequence of the append log without repeats |
| MailRuns.FetchReturnsTheNew | bus/imap_server.py:323-421 | over any run, deletions included, a fetch returns exactly the messages still present that were appended after the previous fetch on an index not marked then; without deletions of the mailbox no index is |
| MailRuns.AppendedIsFetchedIff | bus/imap_server.py:323-368 | in any store, a message just appended is handed out by the next fetch exactly when its index is not already marked |
| MailRuns.DeleteLosesMail | bus/imap_server.py:323-329 | a concrete run in which a deleted mailbox loses a new message |
| MailRuns.OnlyPurgeAndDeleteRemove | bus/imap_server.py:316-425 | a step takes a message out of a mailbox exactly when it deletes that mailbox or purges with a cutoff after the readable date of the message |
| Channels.ChannelRegistry.RegisterMember | agent_datacenter/announce/channels.py:41-52 | the mailbox is added at the end of the one channel's list unless it is there |
| Channels.ChannelRegistry.UnregisterMember | agent_datacenter/announce/channels.py:54-63 | the mailbox leaves the one channel's list; otherwise nothing changes |
| Channels.ChannelRegistry.FanOut | agent_datacenter/announce/channels.py:73-98 | every member whose mailbox works gets the message, failures are skipped, successes are counted |
| Channels.WithMemberDistinct | agent_datacenter/announce/channels.py:41-52 | registering keeps every list free of duplicates and adds exactly the one membership |
| Channels.SameKeyIff | agent_datacenter/announce/channels.py:41-52 | two channel names share a list exactly when they are the same, or a boolean and its number |
| Channels.FanOutOnceEach | agent_datacenter/announce/channels.py:73-98 | with distinct members, each working mailbox gets exactly one more message and no other mailbox changes |
| Channels.FanOutCount | agent_datacenter/announce/channels.py:73-98 | the returned count is the number of members whose mailbox works |
| Broker.OnlineDevices | agent_datacenter/announce/broker.py:131-149 | lists the online records in order under one id key; a failing registry gives none |
| Broker.OnlineIdsAreOnline | agent_datacenter/announce/broker.py:131-149 | an id is in the broker's online set exactly when an online record names it, by either key |
| Broker.BuildToolBindings | agent_datacenter/announce/broker.py:168-200 | the loop yields exactly one binding for each device that is allowed and online, whatever order the set gives |
| Broker.ManifestIsSound | agent_datacenter/announce/broker.py:71-129 | a manifest names exactly the tools that the loaded profile allows and that are online at issue, carries the announcer's primary address, and always subscribes to shared |
| Broker.ManifestAddressesResolve | agent_datacenter/announce/broker.py:100-105 | the router takes a manifest's addresses back to the agent's mailbox and surface, exactly when the mailbox is registered and no longer dot-prefix is |
| Broker.ManifestReadsProfile | agent_datacenter/announce/broker.py:168-233 | the four access lists, and the mode and rate limit of each tool, are what stands at fixed key paths of the loaded profile, or the default |
| Broker.MarkerReachesManifest | agent_datacenter/announce/profile.py:148-193 | a replacement marker on an access list in the agent's own file decides that list of the manifest, whatever the ancestors say, unless merging them makes a marker above it; then the list comes out of that one |
| Manifests.AllowedDevices | agent_datacenter/announce/broker.py:168-177 | a device is allowed exactly when an allow-list of hashable entries names it, or it is a character of an allow-string or a key of an allow-mapping |
| Manifests.OnlineIdsNone | agent_datacenter/announce/broker.py:85-95 | the listing cannot be used exactly when some online record has neither id |
| Manifests.ResolvesIff | agent_datacenter/announce/broker.py:71-129 | an announce gets a manifest exactly when the profile loads, every online record has an id, and each part of the profile has a shape the program reads; a missing profile error means a missing file |
| Manifests.ToolAddresses | agent_datacenter/announce/broker.py:235-242 | a tool has the address its live device reports, and otherwise the plain one of its id |
| Manifests.SurfacesHandedOut | agent_datacenter/announce/broker.py:101-106 | a manifest hands out exactly the surfaces whose entry does not count as false, each below the agent's own box and number |
| Manifests.SubscribedTo | agent_datacenter/announce/broker.py:202-214 | an agent is subscribed to its default channels in order, with shared in front unless it is among them |
| Manifests.PlainEntries | agent_datacenter/announce/broker.py:101-129 | identity, primary address, state references, version and visibility are those of the announce and the profile, or the defaults |
| Manifests.WritableIff | agent_datacenter/announce/listener.py:116-124 | JSON can write a value exactly when no timestamp stands behind any path of keys and positions in it |
| Manifests.WritableManifestIff | agent_datacenter/announce/listener.py:116-124 | a manifest can be posted exactly when none of its profile values has a timestamp inside |
| Announce.Listener.RegisterSubscriptions | agent_datacenter/announce/listener.py:112-114 | registers the subscriptions up to the first name that cannot be a key, where it raises |
| Announce.Listener.HandleOne | agent_datacenter/announce/listener.py:72-124 | registers and replies once, or raises without a reply exactly when the manifest cannot be registered or written |
| Announce.Listener.Pump | agent_datacenter/announce/listener.py:57-70 | fetches all unread announces, handles them in order until one raises, and posts the replies in order |
| Announce.OneReplyEach | agent_datacenter/announce/listener.py:57-178 | a batch gets one reply for each envelope, in order and rightly addressed, exactly when all can be answered; otherwise the replies stop at the first that cannot |
| Announce.ReplyKinds | agent_datacenter/announce/listener.py:72-124 | where a reply goes, who sends it, and which kind it is: parse and validation errors by the payload, resolve errors exactly for a missing profile file, broker errors for all other failures of loading |
| Announce.ReplyTellsWhy | agent_datacenter/announce/listener.py:91-124 | a manifest reply means every reachable profile is there, valid and on no cycle; a resolve error means some reachable file is missing |
| Announce.DatacenterClient.PostAnnounce | agent_datacenter/announce/client.py:96-101 | puts the identity on the announce mailbox and changes nothing else |
| Announce.DatacenterClient.Poll | agent_datacenter/announce/client.py:106-119 | takes everything unread; the outcome is a manifest or an error exactly when that is the first reply addressed to the client |
| Announce.FirstReplyDecides | agent_datacenter/announce/client.py:106-119 | the outcome is a manifest exactly when some position holds it for the mailbox and no earlier position holds any reply for it, and likewise for an error; it is waiting exactly when there is none |
| Announce.DatacenterClient.DrainInvalidations | agent_datacenter/announce/client.py:143-158 | drains the mailbox and answers whether some event names this client or the registry |
| AnnounceRuns.CachedManifestIsSafe | agent_datacenter/announce/client.py:103-119 | for any number of clients and any run, a cached manifest was issued to the client's own primary mailbox, carries that address, and has exactly the tools allowed and online at issue |
| AnnounceRuns.EveryAnnounceAnsweredOnce | agent_datacenter/announce/listener.py:57-124 | over any run without purges, after a pump the events mailbox holds one right reply for each announce ever posted, in order, exactly when all could be answered |
| AnnounceRuns.RepliesAnswerAnnounces | agent_datacenter/announce/listener.py:57-178 | over any run, purges included, replies answer the answered announces one by one, the events mailbox holds only such replies, and every consumed announce is answered exactly when all could be |
| AnnounceRuns.MembershipFollowsAnnounces | agent_datacenter/announce/listener.py:112-124 | over any run lists have no duplicates, every mailbox issued a manifest is in shared and in each channel it lists, and the only other members were left behind by announces at which a pump raised; so all were issued what they are members of exactly when those left nobody else behind |
| AnnounceRuns.UnwritableManifestLosesReplies | agent_datacenter/announce/listener.py:112-124 | a concrete profile whose announce joins shared without a reply and takes the rest of its batch with it |
| AnnounceReads.UnreadIsPending | bus/imap_server.py:337-421 | over any run a reader of the announce, events or invalidate mailbox finds exactly what was put there since anybody last read it and was not purged, in order |
| AnnounceReads.PendingSince | bus/imap_server.py:337-421 | a message is left to read exactly when some step put it there and no later step read the mailbox or purged the message |
| AnnounceReads.AddedAreDated | bus/imap_server.py:337-345 | every message carries the time of the step that put it there, so purges see that date |
| AnnounceReads.DrainAnnouncesIff | agent_datacenter/announce/client.py:143-165 | over any run an idle client that drains announces again exactly when a notice for its agent id or the registry came after the last drain by anybody and was not purged |
| AnnounceReads.RegistryChangeReachesOneClient | agent_datacenter/announce/client.py:143-165 | in every reachable state, after a registry event the first idle client to drain announces again and the next one does not |
| AnnounceReads.PollFindsReplyIff | agent_datacenter/announce/client.py:103-119 | over any run a poll ends the wait exactly when a reply to the mailbox came after the last poll by anybody and was not purged |
| AnnounceReads.PollAfterPump | agent_datacenter/announce/client.py:103-119 | right after a pump a poll ends the wait exactly when a reply was waiting already or the pump got to an announce answered at that mailbox |
| AnnounceReads.PollTakesEverything | agent_datacenter/announce/client.py:106-109 | read status is shared: after one client's poll another client's poll finds nothing |
| AnnounceReads.PollCaches | agent_datacenter/announce/client.py:103-119 | over any run a poll caches exactly the manifest that is the first reply to the client among the unread events, and leaves the cache alone otherwise |
| Invalidator.Watcher.PublishAll | agent_datacenter/announce/invalidator.py:100-133 | one event for each target of a group, and the count of them |
| Invalidator.Watcher.PumpOnce | agent_datacenter/announce/invalidator.py:100-133 | publishes exactly the due events, counts them, and stores the observed etags; an unreadable registry keeps the old one |
| Invalidator.InvalidationReplay | agent_datacenter/announce/invalidator.py:72-133 | over any sequence of snapshots, replaying the published added and removed events from the first profile set gives the current one |
| Invalidator.KnowsLastReadable | agent_datacenter/announce/invalidator.py:72-133 | after any observations the watcher knows the last profiles and the etag of the last registry that could be read, or the first one |
| Invalidator.SilentIffUnchanged | agent_datacenter/announce/invalidator.py:100-133 | a pump publishes nothing exactly when no profile appeared, vanished or changed and the registry etag stayed |
| Invalidator.AnnouncedOnce | agent_datacenter/announce/invalidator.py:100-133 | no event is published twice in one pump exactly when it is not the case that a profile named registry and the registry both changed their etags |
| Invalidator.RegistryAnnouncedTwice | agent_datacenter/announce/invalidator.py:100-133 | concrete snapshots between which it is published twice |
| Router.ResolveWithSurface | agent_datacenter/bus/router.py:92-115 | success gives the longest registered dot-prefix, and mailbox and surface rejoin to the path; failure means no dot-prefix is registered |
| Router.ResolvesOnce | agent_datacenter/bus/router.py:92-115 | registered names and address determine the answer |
| Router.WholePathFirst | agent_datacenter/bus/router.py:101-103 | a whole name resolves to its own mailbox without a surface exactly when it is registered |
| Router.SurfaceRoundTrip | agent_datacenter/announce/envelope.py:60-67 | a printed surface address resolves back to the primary mailbox and the surface exactly when the primary is registered and no longer dot-prefix is |
| FailureWindow.FilterSince | agent_datacenter/bus/bus_launcher.py:69-80 | keeps the failures in the window, in order |
| FailureWindow.TooManyIff | agent_datacenter/bus/bus_launcher.py:69-80 | there are too many failures exactly when at least as many positions as the limit hold a time not before the start of the window |
| FailureWindow.PruningIsLossless | agent_datacenter/skeleton/restart_guard.py:32-46 | with a clock that never runs backwards, the pruned list answers at every later time as the full log since the last clear |
| FailureWindow.RestartGuard.RecordFailure | agent_datacenter/skeleton/restart_guard.py:32-39 | adds the failure to the one device's list and prunes that list |
| FailureWindow.RestartGuard.ShouldAutoBlock | agent_datacenter/skeleton/restart_guard.py:41-46 | true exactly when the window holds the threshold of failures |
| FailureWindow.RestartGuard.Clear | agent_datacenter/skeleton/restart_guard.py:64-66 | forgets the one device |
| FailureWindow.BusLauncher.RecordFailure | agent_datacenter/bus/bus_launcher.py:69-74 | adds a failure and prunes; the flag stays |
| FailureWindow.BusLauncher.ShouldAutoBlock | agent_datacenter/bus/bus_launcher.py:76-80 | true exactly when the window holds the threshold of failures |
| FailureWindow.BusLauncher.Relaunch | agent_datacenter/bus/bus_launcher.py:82-143 | a blocked bus is refused untouched, a success records nothing, and a failure is recorded and blocks when the window is full |
| FailureWindow.BusLauncher.ClearBlock | agent_datacenter/bus/bus_launcher.py:37-41 | clears the flag and the failures |
| FailureWindow.UnblockedMeansFewFailures | agent_datacenter/bus/bus_launcher.py:82-143 | over every run and at every later time an unblocked bus has fewer failures in the window than the threshold, exactly when the threshold is at least one |
| FailureWindow.BlockedMeansFullWindow | agent_datacenter/bus/bus_launcher.py:82-143 | a block was always set on a full window |
| FailureWindow.BlockPersists | agent_datacenter/bus/bus_launcher.py:33-41 | a block and the failure list stay as they are until the block is cleared |
| Rack.DeviceRegistry.Register | skeleton/registry.py:63-76 | writes a fresh online record, also over an old one |
| Rack.DeviceRegistry.SetStatus | skeleton/registry.py:91-95 | changes the status of a known device only |
| Rack.DeviceRegistry.AutoBlock | agent_datacenter/skeleton/restart_guard.py:48-62 | blocks and flags a known device only |
| Rack.DeviceRegistry.PingOnRestart | skeleton/registry.py:97-119 | refreshes every record from its ping and leaves blocked ones alone |
| Rack.Skeleton.RegisterDevice | agent_datacenter/skeleton/skeleton.py:150-195 | refuses a live device and any record that is not offline, and otherwise makes the device live and online |
| Rack.Skeleton.DeregisterDevice | agent_datacenter/skeleton/skeleton.py:197-206 | takes the device offline, live or not, and keeps its record |
| Rack.Skeleton.DeviceBlock | agent_datacenter/skeleton/skeleton.py:253-282 | only the skeleton or the device itself may block, and only a live device |
| Rack.LiveDevicesAreRecorded | agent_datacenter/skeleton/skeleton.py:150-206 | over any run with restarts every live device has a record, and records are never dropped |
| Rack.UnblockedOnlyBy | agent_datacenter/skeleton/skeleton.py:197-206 | a step unblocks a device exactly when it deregisters it by name, or restarts the skeleton and the device is the skeleton |
| Rack.RestartForgetsLive | agent_datacenter/skeleton/skeleton.py:62-76 | a restart leaves no device live and changes no record but the skeleton's |
| Rack.FlaggedOnlyBy | agent_datacenter/skeleton/restart_guard.py:48-62 | a record is flagged as blocked automatically only by the restart guard, and loses the flag only by a new registration |
| Rack.BlockToolIff | agent_datacenter/skeleton/skeleton.py:253-282 | the block tool blocks a live device on record exactly for the skeleton and for the device itself |
| Rack.BlockedUntilDeregistered | agent_datacenter/skeleton/skeleton.py:158-206 | a blocked device other than the skeleton stays blocked, and cannot register, over any run until it is deregistered by name |
| Rack.BlockedIff | agent_datacenter/skeleton/skeleton.py:158-261 | over any run a device is blocked exactly when an authorized block of a live device or the restart guard blocked it, or it was at the start, and no step since deregistered it or restarted the skeleton itself |
| Rack.ReattachAfterRestart | agent_datacenter/skeleton/skeleton.py:158-195 | after a restart and a round of pings a device other than the skeleton can register exactly when it has no record, or is neither blocked nor reachable |
| Rack.RegisteringDecides | agent_datacenter/skeleton/skeleton.py:150-195 | registering a live device, or one whose record is online or blocked, is refused and changes nothing; any other is live and freshly on record |
| Rack.DeregisteredMayRegister | agent_datacenter/skeleton/skeleton.py:158-206 | a deregistered device can register again |
| Chunking.ParagraphsKeepWords | devices/summarizer/device.py:115-117 | splitting into paragraphs keeps exactly the words of the text, and no paragraph is blank |
| Chunking.ParagraphsStandInText | devices/summarizer/device.py:115-117 | the paragraphs stand in the text one behind the other: each begins and ends with a character that is no space and holds no two adjacent newlines, between neighbours there is only whitespace with two adjacent newlines, and around them only whitespace |
| Chunking.ChunkText | devices/summarizer/device.py:113-148 | the words of the chunks in order are those of the text; the chunks follow a greedy plan, runs of whole paragraphs that fit where one more would not, and full slices of each paragraph that is too long; any three neighbours exceed max |
| Chunking.PlanIsUnique | devices/summarizer/device.py:113-148 | paragraphs and limit leave only one such plan, so the chunks are determined |
| Chunking.ChunkCount | devices/summarizer/device.py:113-148 | W words give at most 3 * (W div (max + 1)) + 2 chunks |
| Slate.AppendToSlate | lab/claudecode/cc_queue.py:501-526 | reads the file in text mode; the loop with its two flags writes the specified file |
| Slate.SectionLines | lab/claudecode/cc_queue.py:512-515 | the lines that open and close a Done section, by how they start |
| Slate.MentionsIff | lab/claudecode/cc_queue.py:506-510 | a line mentions a ticket exactly when the id stands somewhere in it and its first character that is no space is a dash |
| Slate.NeedsEntryIff | lab/claudecode/cc_queue.py:501-520 | an entry is needed exactly when there is a Done header and every bullet behind the first one that mentions the ticket has a header of another kind in between |
| Slate.EntryParts | lab/claudecode/cc_queue.py:495-500 | an entry is the id, the title and, in brackets, the result if there is one |
| Slate.UpdatedLines | lab/claudecode/cc_queue.py:501-526 | for any entry, the file read again has the old lines in order with the lines of the entry, as they read, put in or nothing added |
| Slate.AddsAtMostOneLine | lab/claudecode/cc_queue.py:492-526 | a run adds at most one line exactly when no entry is needed, or the entry reads as one line and does not go behind a last break that is no plain newline |
| Slate.SlateInsertion | lab/claudecode/cc_queue.py:492-526 | the lines of the entry go inside a Done section, behind a blank line in that case, exactly when the first Done section has no bullet with the ticket; every old line stays, in order |
| Slate.SlateIdempotent | lab/claudecode/cc_queue.py:483-526 | a second run leaves the file as the first wrote it exactly when no entry was needed, or the entry has no carriage return and the ticket id no break inside |
| Slate.ReturnInResult | lab/claudecode/cc_queue.py:497-526 | a result whose line ended in a carriage return and a newline adds two lines, and the second run changes the file again |
| Sessions.RenderRows | lab/claudecode/session_manager.py:432-450 | the loop prints the specified file |
| SessionText.BulletsPrinted | lab/claudecode/session_manager.py:439-445 | key changes are printed as the lines of their trimmed text, each as it is if it starts with a dash and a space and otherwise behind these |
| Sessions.ParseSessions | lab/claudecode/session_manager.py:119-158 | reads the file in text mode; the loop over the blocks gives the specified rows |
| SessionText.ParseExact | lab/claudecode/session_manager.py:119-158 | for any text: the rows are those of its blocks, cut in front of each line that starts with the session header; a block with an id gives one row with its fields, any other gives none |
| SessionText.FieldExact | lab/claudecode/session_manager.py:134-141 | a field is the trimmed text between its first marker and the first later newline with two stars behind it, or the end; without a marker it is empty |
| SessionText.KeyChangesExact | lab/claudecode/session_manager.py:143-145 | the key changes are the run of bullet lines behind the first marker that has a newline in the whitespace behind it |
| Sessions.SessionsRoundTrip | lab/claudecode/session_manager.py:119-158 | for plain rows, parsing the printed file gives back all rows in order, an empty in-flight note as NONE, exactly when no field holds a carriage return; unchanged exactly when, besides, no note is empty |
| Sessions.ReturnSplitsSession | lab/claudecode/session_manager.py:119-158 | a plain row with a carriage return that comes back as two sessions |

## Left out

- HTTP routes, pages, certificates, PID files, the mirroring to channels, tmux
  and logs, agent registration and polling in the web server: input and output.
- Hub: trimming and cutting a joined session's name to 64 characters; an enqueue
  after the subscriber snapshot counts as delivered; `cc_send` bypasses the
  history and is no part of the no-gap theorem.
- The IMAP wire protocol, the Dovecot client, `idle_wait` and the run loop of the
  listener: only the in-memory store is modelled, with readable envelopes.
- Payloads are abstract: a complete identity, one with a missing field, or
  something that is not a mapping. The decoding of single fields is not modelled.
- Manifest ids, timestamps, etags, descriptions, the issuer fields and constant
  fields of a manifest.
- AnnounceRuns.EveryAnnounceAnsweredOnce: speaks of what lies in the mailboxes, so
  of runs without purges; RepliesAnswerAnnounces is the half that holds with purges.
- The freshness of a reply: a late reply may answer a later announce. Agents with
  the same box and number share a mailbox, so nothing is claimed about the agent id.
- Profiles.LoadProfile: does not follow an `inherits` value that is a non-empty
  mapping, which the program iterates in file order, or a list with a name that is
  no string, which the program turns into a file name; such a profile gives the
  error `Unmodelled`, where the program may load it.
- Profiles.LoadSucceedsIff: speaks of the program only for directories in which no
  reachable profile has such parents.
- Broker.ChannelNames: a `default_channels` mapping is a broker failure here; the
  program lists its keys in file order.
- YAML parsing, file names and reading errors are outside, and so are floats as
  channel names.
- Merge.ResolveCleans: lists are not searched for markers, as in the code, and a
  marker's payload is not walked.
- Slate: the ticket's result is already cut to its first line and 120 characters;
  a missing slate and write failures.
- Sessions.SessionsRoundTrip: rows must have an id without whitespace, a
  non-empty theme, trimmed fields without newlines, bullets for key changes and no
  double stars; other rows are printed and parsed by the model but not claimed to survive.
- Database access, the other session and ticket commands, the status prefixes of
  titles, and `_decision_rollup`.
- Router.send and its self-healing, spawning the bus process and probing it: success or failure is an input.
- Rack: halting, health tools and events of the skeleton; registry fields that no theorem speaks about.
- DeviceQueue, health thresholds, device shims, inference, Discord, browser,
  installer and audit code: thin or easy.
- Steps inside a locked section or inside one pump of the single listener are not interleaved with others.
