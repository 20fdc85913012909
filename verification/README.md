# vid-chat room bookkeeping in Dafny

vid-chat is a browser video-meeting app. A Node server relays media through
mediasoup, a selective forwarding unit (SFU), and a React page shows the
meeting. This project models the bookkeeping both sides keep, and proves what
that bookkeeping promises.

The model has six modules:

- `SfuRegistry` (`sfu_registry.dfy`) covers the server's registry. It holds the
  `rooms` map from room id to room, each room's `peers` map from socket id to
  peer, and `getOrCreateRoom`, `getPeer` and `cleanupPeer`. Routers,
  transports, producers and consumers are opaque handles. The registry records
  each `close()` in a log, in the order it happens, and records each router it
  creates.
- `RoomClient` (`room_client.dfy`) covers the meeting page. It holds the remote
  streams by peer and the consumers by consumer id, and the operations on them:
  - `getOrCreatePeerStream`, `addRemoteTrack` and `removeRemoteProducer`;
  - the handlers for producer notices, a peer leaving and a disconnect;
  - the join guard and the leave teardown;
  - the pure helpers `getFriendlyMediaError`, `streamTrackKey` and
    `participantCount`.

  The page's state is the class `RoomSession`. Each stateful method is tied to
  a specification function on maps (`WithTrack`, `AfterProducerClosed`,
  `Step`), and the lemmas beside those functions state what the page promises.
- `Tiles` (`tiles.dfy`) covers the signatures a video tile and an audio tile
  memoise on: `getTrackSig`, `trackCount` and `getAudioSig`. For tracks whose
  kind and id contain neither `:` nor `|`, the signature changes exactly when
  the multiset of tracks changes.
- `Media` (`media.dfy`) models a media stream as the sequence of its tracks
  (kind, id, ready state), with `getTracks`, `getAudioTracks`, `addTrack` and
  `removeTrack`.
- `TextOrder` (`text_order.dfy`) holds the string machinery: JavaScript's
  default `sort` order on strings, a sort that realises it, and `join`/`split`
  on a one-character separator. `Iteration` (`iteration.dfy`) states what a
  `for ... of` loop over a `Map` visits.

## Model

| member | source | states |
|---|---|---|
| SfuRegistry.Registry.GetOrCreateRoom | server/mediasoup.js:35-45 | A known id returns the registered room and creates no router. A new id registers a fresh room with that id, the given router and no peers, and logs exactly one new router. Every room stays registered under its own id. |
| SfuRegistry.Room.GetPeer | server/mediasoup.js:47-58 | A known socket gets its stored peer and the peer map is unchanged, so a second call is idempotent. An unknown socket gets a fresh peer with empty transports, producers and consumers, added as exactly one new entry. |
| SfuRegistry.Registry.CloseAll | server/mediasoup.js:64-78 | Every handle of the map is closed exactly once, in the order the loop visits the keys. Nothing else is logged. |
| SfuRegistry.Registry.CleanupPeer | server/mediasoup.js:60-85 | An unknown socket changes nothing. A known socket's consumers, then its producers, then its transports are each closed once, in that order. The socket leaves the room's peer map and no other peer changes. The room is dropped from `rooms` (by its id) exactly when no peers remain; no other room changes. |
| RoomClient.FriendlyMediaError | client/src/pages/Room.jsx:11-23 | Maps each known error name to its fixed text. For any other name the result is the error's own message when it is non-empty, and the generic text otherwise. The result is never empty. |
| RoomClient.StreamTrackKey | client/src/pages/Room.jsx:25-36 | "none" exactly for an absent stream. "" exactly for a stream without tracks. |
| RoomClient.StreamTrackKeyPermutation | client/src/pages/Room.jsx:28-32 | Reordering the tracks never changes the key. |
| RoomClient.StreamTrackKeyIgnoresReadyState | client/src/pages/Room.jsx:30 | The key depends only on kinds and ids, so a track ending does not change it. |
| RoomClient.ParticipantCount | client/src/pages/Room.jsx:74-77 | The count is at least 1 (the local participant). It is exactly 1 when there are no remote peers. |
| RoomClient.ParticipantCountWithTrack | client/src/pages/Room.jsx:74-77 | A track from a new peer adds one participant; a track from a known peer adds none. |
| RoomClient.ParticipantCountProducerClosed | client/src/pages/Room.jsx:74-77 | Removing a producer never increases the count. |
| RoomClient.RoomSession.GetOrCreatePeerStream | client/src/pages/Room.jsx:79-86 | Returns the existing stream and changes nothing. Otherwise it inserts an empty stream for that peer only. |
| RoomClient.RemoveTracksOfKind | client/src/pages/Room.jsx:99-101 | Removing every track of a kind from a snapshot of the tracks leaves exactly the tracks of other kinds, in order. |
| RoomClient.RoomSession.AddRemoteTrack | client/src/pages/Room.jsx:96-107 | The streams become `WithTrack` of the old streams. The at-most-one-track-per-kind invariant is kept. |
| RoomClient.WithTrackReplacesKind | client/src/pages/Room.jsx:96-103 | The peer's stream then holds exactly one track of the kind, the new one. Its other kinds and every other peer's stream are unchanged. |
| RoomClient.WithTrackOnePerKind | client/src/pages/Room.jsx:96-103 | Adding a track keeps every stream at one track per kind. |
| RoomClient.RoomSession.RecordConsumer | client/src/pages/Room.jsx:275-282 | The consumer is remembered with its peer, producer and kind, and its track is shown as by `addRemoteTrack`. |
| RoomClient.WithoutProducer | client/src/pages/Room.jsx:110-116 | No remaining consumer references the producer. Every consumer of another producer remains unchanged. |
| RoomClient.RoomSession.RemoveRemoteProducer | client/src/pages/Room.jsx:109-129 | Consumers become `WithoutProducer` and streams become `AfterProducerClosed`. Each matching consumer is closed once, in loop order. The invariant is kept. |
| RoomClient.RoomSession.DropTrackKind | client/src/pages/Room.jsx:118-126 | Strips the kind from the peer's stream, and deletes the peer when its stream is left empty. |
| RoomClient.StrippedStep | client/src/pages/Room.jsx:110-127 | Handling one more matching consumer is exactly one `DropKind` step. This ties the loop to `AfterProducerClosed`. |
| RoomClient.ProducerClosedStripsKinds | client/src/pages/Room.jsx:118-123 | For each removed consumer, its peer's stream keeps no track of that consumer's kind. |
| RoomClient.ProducerClosedDeletesEmptied | client/src/pages/Room.jsx:118-126 | A touched peer is deleted exactly when all its tracks were of removed kinds. If it stays, its stream is non-empty and keeps its other kinds. |
| RoomClient.ProducerClosedKeepsOthers | client/src/pages/Room.jsx:110-127 | Peers no removed consumer refers to keep their stream. |
| RoomClient.ProducerClosedUnknown | client/src/pages/Room.jsx:110-111 | A producer no consumer references leaves both maps unchanged. |
| RoomClient.ProducerClosedOnePerKind | client/src/pages/Room.jsx:118-126 | Removing a producer keeps every stream at one track per kind. |
| RoomClient.RoomSession.OnProducerClosed | client/src/pages/Room.jsx:340-343 | A notice without a producer id changes nothing. Otherwise it is `removeRemoteProducer` of that id. |
| RoomClient.RoomSession.OnUserLeft | client/src/pages/Room.jsx:310-314 | A named peer's stream is forgotten. A missing or empty name changes nothing. |
| RoomClient.RoomSession.OnDisconnect | client/src/pages/Room.jsx:316-319 | All remote streams are forgotten. |
| RoomClient.AcceptsNewProducer | client/src/pages/Room.jsx:334-338 | A new-producer notice is consumed exactly when it names a producer and a peer, and the peer is not the local socket. |
| RoomClient.RemoteNotices | client/src/pages/Room.jsx:356-361 | Keeps exactly the listed notices whose peer is not the local socket. |
| RoomClient.ProducersToConsume | client/src/pages/Room.jsx:353-361 | Walks the existing-producers list in order and yields `RemoteNotices`. A missing list yields nothing. The local peer is never consumed. |
| RoomClient.AcceptedNoticeIsRemote | client/src/pages/Room.jsx:334-361 | A notice the event handler accepts is one the existing-producers loop also consumes. |
| RoomClient.Step | client/src/pages/Room.jsx:292-297 | The intended guard: a rejected join click changes nothing, and an accepted one marks one join as under way. |
| RoomClient.JoinGuardHolds | client/src/pages/Room.jsx:292-297 | With the intended guard, any sequence of join clicks, join completions and leaves keeps at most one join in progress, and the joining flag is set exactly while one is. |
| RoomClient.JoinGuardRace | client/src/pages/Room.jsx:293-297 | As written, three clicks during a pending join leave two joins in progress. |
| RoomClient.RoomSession.BeginJoin | client/src/pages/Room.jsx:292-297 | Proceeds exactly when not joined and not joining. The flags follow `Step(_, Start)` and the error is cleared. |
| RoomClient.RoomSession.FinishJoin | client/src/pages/Room.jsx:363-369 | The joining flag is released. Success marks the page joined; failure shows the non-empty friendly message. |
| RoomClient.RoomSession.CloseConsumers | client/src/pages/Room.jsx:391-396 | Every consumer is closed exactly once, in loop order. |
| RoomClient.RoomSession.CloseProducers | client/src/pages/Room.jsx:399-404 | Every local producer is closed exactly once, in loop order. |
| RoomClient.RoomSession.LeaveMeeting | client/src/pages/Room.jsx:379-415 | Not joined afterwards. Streams, consumers and producers are empty and both transports are gone. The log holds every consumer close, then every producer close, then the send and then the receive transport close. |
| Tiles.TrackSig | client/src/components/VideoTile.jsx:3-14 | "none" exactly for an absent stream. "" exactly for a stream with no tracks. |
| Tiles.TrackCount | client/src/components/VideoTile.jsx:26-32 | 0 exactly when the signature is "none" or "". Otherwise it is the number of tracks, one per signature entry. |
| Tiles.TrackSigPermutation | client/src/components/VideoTile.jsx:6-10 | Any permutation of the tracks gives the same signature. |
| Tiles.TrackSigExact | client/src/components/VideoTile.jsx:6-10 | For delimited tracks, two signatures are equal exactly when the track multisets are equal. Adding, removing or ending a track changes the signature. |
| Tiles.TrackSigSplits | client/src/components/VideoTile.jsx:8-10 | The signature splits at the bar separator back into one sorted `kind:id:readyState` entry per track. |
| Tiles.VideoEntryInjective | client/src/components/VideoTile.jsx:8 | Distinct delimited tracks have distinct entries. |
| Tiles.AudioSig | client/src/components/AudioTile.jsx:3-14 | "none" exactly for an absent stream. "" exactly for a stream with no audio track. |
| Tiles.AudioSigPermutation | client/src/components/AudioTile.jsx:6-10 | The signature depends only on the multiset of audio tracks. |
| Tiles.AudioSigStreamPermutation | client/src/components/AudioTile.jsx:6-10 | Reordering the stream's tracks never changes it. |
| Tiles.AudioSigIgnoresVideo | client/src/components/AudioTile.jsx:7 | Non-audio tracks inserted anywhere do not change it. |
| Tiles.AudioSigExact | client/src/components/AudioTile.jsx:6-10 | For delimited tracks it changes exactly when the audio tracks change. |
| Tiles.AudioEntryInjective | client/src/components/AudioTile.jsx:8 | Distinct delimited audio tracks have distinct `id:readyState` entries. |
| Media.OfKind | client/src/components/AudioTile.jsx:7 | `getAudioTracks`: exactly the stream's tracks of the kind, and no more tracks than the stream has. |
| Media.AddTrack | client/src/pages/Room.jsx:103 | `addTrack`: the track is in the stream afterwards, and nothing else is added. |
| Media.Exclude | client/src/pages/Room.jsx:101 | `removeTrack`: exactly the tracks not removed remain. |
| Media.StripKindsTwice | client/src/pages/Room.jsx:118-123 | Removing kinds one after another equals removing them all at once. |
| Media.OfKindStripKinds | client/src/pages/Room.jsx:99-101 | After removing kinds, a removed kind has no track left and other kinds are untouched. |
| Media.EntriesPermutationConverse | client/src/components/VideoTile.jsx:8 | When the entry function tells tracks apart, equal entry multisets come only from equal track multisets. |
| TextOrder.Sort | client/src/components/VideoTile.jsx:9 | The result is sorted in the default string order and is a permutation of the input. |
| TextOrder.SortedUnique | client/src/components/VideoTile.jsx:9 | A sorted permutation is unique, so any correct sort agrees with this one. |
| TextOrder.SortPermutation | client/src/components/VideoTile.jsx:9 | Permutations of the input sort to the same list. |
| TextOrder.SplitJoin | client/src/components/VideoTile.jsx:10 | Splitting at the separator undoes joining when no part contains it. |
| TextOrder.SortedJoinInjective | client/src/components/VideoTile.jsx:9-10 | Equal sorted-and-joined signatures of non-empty, separator-free entries come from equal entry multisets. |
| TextOrder.LexLeTrans | client/src/components/VideoTile.jsx:9 | The default string order is transitive. `LexLeTotal` and `LexLeAntisym` give totality and antisymmetry. |

## Left out

- `getWorker` and `createWebRtcTransport` (server/mediasoup.js:23-33, 87-106) call into the media library and read the environment. A router is a parameter of `GetOrCreateRoom`, and transports, producers and consumers are opaque handles.
- SfuRegistry.Registry.GetOrCreateRoom: the `await` between the lookup and the insert lets two concurrent calls for the same new id both create a room. The model runs the function without interleaving.
- JavaScript `Map` insertion order is not modelled. Loops over maps report the order they used as an enumeration of the keys. The grouping is exact: consumers, then producers, then transports.
- The `try { ... } catch {}` around each `close()` is not modelled. Every `close()` is treated as returning normally.
- Media streams are values. `addRemoteTrack` and `removeRemoteProducer` mutate a shared stream object in place, and the model replaces the map entry instead, so aliasing of a stream between tiles is not captured.
- The `try/catch` "unknown" fallbacks of `getTrackSig`, `getAudioSig` and `streamTrackKey`, and the `0` fallback of `trackCount`, are not modelled. They only fire when the browser's `getTracks` throws.
- The default sort compares UTF-16 code units. The model compares characters, which agrees except for characters outside the Basic Multilingual Plane.
- The React state copy of the remote streams (`syncRemoteStreamsState`) is not modelled separately. It mirrors the map, so `ParticipantCount` is stated on the map itself.
- Everything that talks to the network or media devices is left out as I/O: `sfuRequest`, device and transport setup, `getUserMedia`, producing local media, the consume request, the socket, `safeSfuLeave`, stopping local tracks and navigation. `FinishJoin` takes the outcome of those steps as a parameter.
- Chat, mute toggles, rendering and the socket's "connect" logging are user interface, not state bookkeeping.
- The signalling-only server (server/index.js) is not part of this model.
- RoomClient.RoomSession.BeginJoin implements the intended guard, in which a rejected click leaves the joining flag alone. The written guard is modelled by `StepAsWritten` (see Findings).

## Findings

| source | as written | input that shows it | evidently intended | confidence | as-written member | corrected member |
|---|---|---|---|---|---|---|
| client/src/pages/Room.jsx:293-297,367-369 | The early `return` of the join guard runs inside the `try`, so its `finally` clears `joiningRef`. A rejected click therefore re-opens the guard, and the Join button is disabled only once joined. | Click Join three times while the first join still awaits the server. The second click is rejected but clears the flag, so the third starts a second concurrent join. | A rejected click leaves the flag set, so at most one join is ever in progress. | not executed | RoomClient.JoinGuardRace | RoomClient.JoinGuardHolds |
