/**
 The meeting page's bookkeeping of remote media (client/src/pages/Room.jsx).

 The page keeps two maps: the remote streams, from peer id to the stream of
 that peer's tracks, and the consumers, from consumer id to the peer, producer
 and kind it receives. A remote track arrives with a consumer and replaces any
 track of the same kind; when a producer closes, every consumer of it is
 closed and forgotten, its kind is stripped from its peer's stream, and a peer
 left without tracks disappears. The join guard, the leave teardown and the
 filters on producer notices complete the picture.
 */
module RoomClient {
  import opened Media
  import opened Iteration
  import TextOrder

  // ---------------------------------------------------------------------------
  // Friendly media errors

  /** A thrown error as `getFriendlyMediaError` reads it: its `name` and `message`. */
  datatype MediaFailure = MediaFailure(name: Option<string>, message: Option<string>)

  const PermissionDenied: string := "Permission denied. Allow Camera/Microphone in browser settings and try again."
  const CameraBusy: string := "Camera failed to start (maybe in use by another app/tab). Close other apps and retry."
  const NoDevice: string := "No camera/microphone found on this device."
  const GenericFailure: string := "Failed to access camera/microphone."

  /** JavaScript truthiness of an optional string: present and not empty. */
  predicate Truthy(v: Option<string>)
  {
    v.Some? && v.value != ""
  }

  /** `err?.name || ""` */
  function ErrorName(err: Option<MediaFailure>): string
  {
    if err.Some? && Truthy(err.value.name) then err.value.name.value else ""
  }

  /**
   `getFriendlyMediaError`: one fixed text per known browser error name,
   otherwise the error's own message, otherwise a generic text. The result is
   never empty, so the error banner (shown only for a non-empty message)
   always appears after a failed join.
   */
  function FriendlyMediaError(err: Option<MediaFailure>): (msg: string)
    ensures msg != ""
    ensures ErrorName(err) in {"NotAllowedError", "SecurityError"} ==> msg == PermissionDenied
    ensures ErrorName(err) == "NotReadableError" ==> msg == CameraBusy
    ensures ErrorName(err) == "NotFoundError" ==> msg == NoDevice
    ensures ErrorName(err) !in {"NotAllowedError", "SecurityError", "NotReadableError", "NotFoundError"} ==>
              msg == (if err.Some? && Truthy(err.value.message) then err.value.message.value else GenericFailure)
  {
    var name := ErrorName(err);
    if name == "NotAllowedError" || name == "SecurityError" then PermissionDenied
    else if name == "NotReadableError" then CameraBusy
    else if name == "NotFoundError" then NoDevice
    else if err.Some? && Truthy(err.value.message) then err.value.message.value
    else GenericFailure
  }

  // ---------------------------------------------------------------------------
  // Stream keys and the participant count

  /** A `streamTrackKey` entry: `kind:id`. */
  function KeyEntry(t: Track): string
  {
    t.kind + ":" + t.id
  }

  lemma KeyEntriesShape(ts: seq<Track>)
    ensures forall e :: e in Entries(ts, KeyEntry) ==> ':' in e
  {
    var es := Entries(ts, KeyEntry);
    forall i | 0 <= i < |es| ensures ':' in es[i] {
      EntriesAt(ts, KeyEntry, i);
      assert es[i][|ts[i].kind|] == ':';
    }
  }

  /**
   `streamTrackKey`: "none" for an absent stream, otherwise the sorted
   `kind:id` entries joined by "|" (the React key of a peer's tiles).
   */
  function StreamTrackKey(stream: Option<seq<Track>>): (key: string)
    ensures key == "none" <==> stream.None?
    ensures stream.Some? ==> (key == "" <==> stream.value == [])
  {
    match stream
    case None => "none"
    case Some(ts) =>
      KeyEntriesShape(ts);
      TextOrder.SortedJoinMarked(Entries(ts, KeyEntry), '|', ':');
      assert ':' !in "none";
      TextOrder.SortedJoin(Entries(ts, KeyEntry), '|')
  }

  /** The key does not depend on the order of the tracks. */
  lemma StreamTrackKeyPermutation(ts: seq<Track>, us: seq<Track>)
    requires multiset(ts) == multiset(us)
    ensures StreamTrackKey(Some(ts)) == StreamTrackKey(Some(us))
  {
    EntriesPermutation(ts, us, KeyEntry);
    TextOrder.SortedJoinPermutation(Entries(ts, KeyEntry), Entries(us, KeyEntry), '|');
  }

  /** The key ignores ready states: a track that ends does not change the key of its peer's tiles. */
  lemma {:induction false} StreamTrackKeyIgnoresReadyState(ts: seq<Track>, us: seq<Track>)
    requires |ts| == |us|
    requires forall i :: 0 <= i < |ts| ==> ts[i].kind == us[i].kind && ts[i].id == us[i].id
    ensures StreamTrackKey(Some(ts)) == StreamTrackKey(Some(us))
  {
    forall i | 0 <= i < |ts| ensures Entries(ts, KeyEntry)[i] == Entries(us, KeyEntry)[i] {
      EntriesAt(ts, KeyEntry, i);
      EntriesAt(us, KeyEntry, i);
    }
    assert Entries(ts, KeyEntry) == Entries(us, KeyEntry);
  }

  /** `participantCount`: the local participant plus one per remote peer with a stream. */
  function ParticipantCount(streams: map<string, seq<Track>>): (n: nat)
    ensures n >= 1
    ensures n == 1 <==> streams == map[]
  {
    1 + |streams.Keys|
  }

  // ---------------------------------------------------------------------------
  // Adding a remote track

  /** The peer's stream, or the fresh empty stream `getOrCreatePeerStream` would create. */
  function PeerStream(streams: map<string, seq<Track>>, peerId: string): seq<Track>
  {
    if peerId in streams then streams[peerId] else []
  }

  /** The remote streams after `addRemoteTrack(peerId, kind, track)`. */
  function WithTrack(streams: map<string, seq<Track>>, peerId: string, kind: string, track: Track): map<string, seq<Track>>
  {
    streams[peerId := AddTrack(RemoveKind(PeerStream(streams, peerId), kind), track)]
  }

  /**
   After adding a track of `kind`, the peer's stream holds exactly one track of
   that kind, the new one; its tracks of other kinds and every other peer's
   stream are as before.
   */
  lemma WithTrackReplacesKind(streams: map<string, seq<Track>>, peerId: string, kind: string, track: Track)
    requires track.kind == kind
    ensures var r := WithTrack(streams, peerId, kind, track);
      && peerId in r
      && OfKind(r[peerId], kind) == [track]
      && (forall k :: k != kind ==> OfKind(r[peerId], k) == OfKind(PeerStream(streams, peerId), k))
      && (forall p :: p != peerId ==> (p in r <==> p in streams))
      && (forall p :: p != peerId && p in streams ==> r[p] == streams[p])
  {
    var s := RemoveKind(PeerStream(streams, peerId), kind);
    assert track !in s;
    assert AddTrack(s, track) == s + [track];
    OfKindAppend(s, [track], kind);
    OfKindStripKinds(PeerStream(streams, peerId), {kind}, kind);
    forall k | k != kind
      ensures OfKind(s + [track], k) == OfKind(PeerStream(streams, peerId), k)
    {
      OfKindAppend(s, [track], k);
      OfKindStripKinds(PeerStream(streams, peerId), {kind}, k);
    }
  }

  /** Every stream keeps at most one track per kind, if it did before. */
  ghost predicate AllOnePerKind(streams: map<string, seq<Track>>)
  {
    forall p :: p in streams ==> OnePerKind(streams[p])
  }

  lemma WithTrackOnePerKind(streams: map<string, seq<Track>>, peerId: string, kind: string, track: Track)
    requires track.kind == kind
    requires AllOnePerKind(streams)
    ensures AllOnePerKind(WithTrack(streams, peerId, kind, track))
  {
    var r := WithTrack(streams, peerId, kind, track);
    WithTrackReplacesKind(streams, peerId, kind, track);
    forall k ensures |OfKind(r[peerId], k)| <= 1 {
      if k != kind {
        if peerId in streams {
          assert OnePerKind(streams[peerId]);
          assert |OfKind(streams[peerId], k)| <= 1;
        }
      }
    }
  }

  /** A track for a new peer adds one participant; for a known peer, none. */
  lemma ParticipantCountWithTrack(streams: map<string, seq<Track>>, peerId: string, kind: string, track: Track)
    ensures ParticipantCount(WithTrack(streams, peerId, kind, track))
            == ParticipantCount(streams) + (if peerId in streams then 0 else 1)
  {
    var r := WithTrack(streams, peerId, kind, track);
    if peerId in streams {
      assert r.Keys == streams.Keys;
    } else {
      assert r.Keys == streams.Keys + {peerId};
    }
  }

  // ---------------------------------------------------------------------------
  // Removing a remote producer

  /** What the page remembers of a consumer: whose producer it receives, and its kind. */
  datatype ConsumerInfo = ConsumerInfo(peerId: string, producerId: string, kind: string)

  /** The ids of the consumers receiving `producerId`. */
  function ConsumersOf(consumers: map<string, ConsumerInfo>, producerId: string): (ids: set<string>)
    ensures ids <= consumers.Keys
  {
    set c | c in consumers && consumers[c].producerId == producerId
  }

  /** The consumer map once every consumer of `producerId` has been deleted. */
  function WithoutProducer(consumers: map<string, ConsumerInfo>, producerId: string): (r: map<string, ConsumerInfo>)
    ensures forall c :: c in r ==> r[c].producerId != producerId
    ensures forall c :: c in consumers && consumers[c].producerId != producerId ==> c in r && r[c] == consumers[c]
    ensures r.Keys == consumers.Keys - ConsumersOf(consumers, producerId)
  {
    consumers - ConsumersOf(consumers, producerId)
  }

  /** The peers whose streams the consumers in `done` touch. */
  function Touched(consumers: map<string, ConsumerInfo>, done: set<string>): set<string>
  {
    set c | c in done && c in consumers :: consumers[c].peerId
  }

  /** The kinds the consumers in `done` strip from `peer`'s stream. */
  function DroppedKinds(consumers: map<string, ConsumerInfo>, done: set<string>, peer: string): set<string>
  {
    set c | c in done && c in consumers && consumers[c].peerId == peer :: consumers[c].kind
  }

  /**
   The remote streams once the consumers in `done` have been handled: each
   touched peer loses the kinds of its consumers, and is deleted if nothing is
   left; untouched peers keep their stream.
   */
  function Stripped(streams: map<string, seq<Track>>, consumers: map<string, ConsumerInfo>, done: set<string>): map<string, seq<Track>>
  {
    map p | p in streams && (p in Touched(consumers, done) ==> StripKinds(streams[p], DroppedKinds(consumers, done, p)) != [])
      :: StripKinds(streams[p], DroppedKinds(consumers, done, p))
  }

  /** The remote streams after `removeRemoteProducer(producerId)`. */
  function AfterProducerClosed(streams: map<string, seq<Track>>, consumers: map<string, ConsumerInfo>, producerId: string): map<string, seq<Track>>
  {
    Stripped(streams, consumers, ConsumersOf(consumers, producerId))
  }

  lemma TouchedStep(consumers: map<string, ConsumerInfo>, done: set<string>, c: string)
    requires c in consumers
    ensures Touched(consumers, done + {c}) == Touched(consumers, done) + {consumers[c].peerId}
  {
  }

  lemma DroppedStep(consumers: map<string, ConsumerInfo>, done: set<string>, c: string, q: string)
    requires c in consumers
    ensures DroppedKinds(consumers, done + {c}, q)
            == if q == consumers[c].peerId then DroppedKinds(consumers, done, q) + {consumers[c].kind}
               else DroppedKinds(consumers, done, q)
  {
  }

  /** Before any consumer is handled, the streams are as they were. */
  lemma StrippedNothing(streams: map<string, seq<Track>>, consumers: map<string, ConsumerInfo>)
    ensures Stripped(streams, consumers, {}) == streams
  {
    var m := Stripped(streams, consumers, {});
    assert Touched(consumers, {}) == {};
    forall p | p in streams ensures p in m && m[p] == streams[p] {
      assert DroppedKinds(consumers, {}, p) == {};
      StripNothing(streams[p]);
    }
    assert m.Keys == streams.Keys;
  }

  /** Handling one more consumer leaves the other peers' entries as they were. */
  lemma StrippedStepOther(streams: map<string, seq<Track>>, consumers: map<string, ConsumerInfo>, done: set<string>, c: string, q: string)
    requires c in consumers && q != consumers[c].peerId
    ensures var m, m' := Stripped(streams, consumers, done), Stripped(streams, consumers, done + {c});
            (q in m' <==> q in m) && (q in m ==> m'[q] == m[q])
  {
    TouchedStep(consumers, done, c);
    DroppedStep(consumers, done, c, q);
  }

  /** Handling one more consumer strips its kind from its own peer's entry. */
  lemma StrippedStepPeer(streams: map<string, seq<Track>>, consumers: map<string, ConsumerInfo>, done: set<string>, c: string)
    requires c in consumers
    ensures var m, m' := Stripped(streams, consumers, done), Stripped(streams, consumers, done + {c});
            var p, k := consumers[c].peerId, consumers[c].kind;
            && (p in m' <==> p in m && RemoveKind(m[p], k) != [])
            && (p in m' ==> m'[p] == RemoveKind(m[p], k))
  {
    var p, k := consumers[c].peerId, consumers[c].kind;
    TouchedStep(consumers, done, c);
    DroppedStep(consumers, done, c, p);
    if p in streams {
      var before := StripKinds(streams[p], DroppedKinds(consumers, done, p));
      StripKindsTwice(streams[p], DroppedKinds(consumers, done, p), k);
      if before == [] {
        assert RemoveKind(before, k) == [];
      }
    }
  }

  /**
   The remote streams after one removed consumer of `kind` for `peerId`: the
   peer's tracks of that kind go, and the peer goes with them if nothing is left.
   */
  function DropKind(streams: map<string, seq<Track>>, peerId: string, kind: string): map<string, seq<Track>>
  {
    if peerId !in streams then streams
    else if RemoveKind(streams[peerId], kind) == [] then streams - {peerId}
    else streams[peerId := RemoveKind(streams[peerId], kind)]
  }

  /** A map that agrees with `m` off `p` and holds `RemoveKind(m[p], k)` at `p` when that is non-empty. */
  lemma {:induction false} UpdateOrDrop(m: map<string, seq<Track>>, m': map<string, seq<Track>>, p: string, k: string)
    requires forall q :: q != p ==> (q in m' <==> q in m) && (q in m ==> m'[q] == m[q])
    requires p in m' <==> p in m && RemoveKind(m[p], k) != []
    requires p in m' ==> m'[p] == RemoveKind(m[p], k)
    ensures m' == DropKind(m, p, k)
  {
    var expected := DropKind(m, p, k);
    assert m'.Keys == expected.Keys;
  }

  /** Handling one more consumer is one step of the removal loop. */
  lemma StrippedStep(streams: map<string, seq<Track>>, consumers: map<string, ConsumerInfo>, done: set<string>, c: string)
    requires c in consumers
    ensures Stripped(streams, consumers, done + {c})
              == DropKind(Stripped(streams, consumers, done), consumers[c].peerId, consumers[c].kind)
  {
    var m := Stripped(streams, consumers, done);
    var m' := Stripped(streams, consumers, done + {c});
    var p := consumers[c].peerId;
    forall q | q != p
      ensures (q in m' <==> q in m) && (q in m ==> m'[q] == m[q])
    {
      StrippedStepOther(streams, consumers, done, c, q);
    }
    StrippedStepPeer(streams, consumers, done, c);
    UpdateOrDrop(m, m', p, consumers[c].kind);
  }

  /** After the removal, no track of a removed consumer's kind remains in its peer's stream. */
  lemma ProducerClosedStripsKinds(streams: map<string, seq<Track>>, consumers: map<string, ConsumerInfo>, producerId: string, c: string)
    requires c in ConsumersOf(consumers, producerId)
    ensures var r := AfterProducerClosed(streams, consumers, producerId);
            consumers[c].peerId in r ==> OfKind(r[consumers[c].peerId], consumers[c].kind) == []
  {
    var done := ConsumersOf(consumers, producerId);
    var p := consumers[c].peerId;
    assert consumers[c].kind in DroppedKinds(consumers, done, p);
    if p in streams {
      OfKindStripKinds(streams[p], DroppedKinds(consumers, done, p), consumers[c].kind);
    }
  }

  /**
   A peer whose stream the removal touches is deleted exactly when nothing is
   left of it, and otherwise keeps every track whose kind was not removed.
   */
  lemma ProducerClosedDeletesEmptied(streams: map<string, seq<Track>>, consumers: map<string, ConsumerInfo>, producerId: string, p: string)
    requires p in streams
    requires p in Touched(consumers, ConsumersOf(consumers, producerId))
    ensures var r := AfterProducerClosed(streams, consumers, producerId);
            var kinds := DroppedKinds(consumers, ConsumersOf(consumers, producerId), p);
            && (p !in r <==> forall t :: t in streams[p] ==> t.kind in kinds)
            && (p in r ==> r[p] != [] && forall k :: k !in kinds ==> OfKind(r[p], k) == OfKind(streams[p], k))
  {
    var kinds := DroppedKinds(consumers, ConsumersOf(consumers, producerId), p);
    var s := StripKinds(streams[p], kinds);
    forall k | k !in kinds ensures OfKind(s, k) == OfKind(streams[p], k) {
      OfKindStripKinds(streams[p], kinds, k);
    }
    if s != [] {
      assert s[0] in s;
    }
  }

  /** Peers that no removed consumer refers to keep their stream unchanged. */
  lemma ProducerClosedKeepsOthers(streams: map<string, seq<Track>>, consumers: map<string, ConsumerInfo>, producerId: string, p: string)
    requires p in streams
    requires p !in Touched(consumers, ConsumersOf(consumers, producerId))
    ensures var r := AfterProducerClosed(streams, consumers, producerId);
            p in r && r[p] == streams[p]
  {
    var done := ConsumersOf(consumers, producerId);
    assert DroppedKinds(consumers, done, p) == {};
    StripNothing(streams[p]);
  }

  /** A producer that no consumer receives leaves both maps as they were. */
  lemma ProducerClosedUnknown(streams: map<string, seq<Track>>, consumers: map<string, ConsumerInfo>, producerId: string)
    requires forall c :: c in consumers ==> consumers[c].producerId != producerId
    ensures AfterProducerClosed(streams, consumers, producerId) == streams
    ensures WithoutProducer(consumers, producerId) == consumers
  {
    var r := AfterProducerClosed(streams, consumers, producerId);
    assert ConsumersOf(consumers, producerId) == {};
    forall p | p in streams ensures p in r && r[p] == streams[p] {
      ProducerClosedKeepsOthers(streams, consumers, producerId, p);
    }
    assert r.Keys == streams.Keys;
  }

  lemma ProducerClosedOnePerKind(streams: map<string, seq<Track>>, consumers: map<string, ConsumerInfo>, producerId: string)
    requires AllOnePerKind(streams)
    ensures AllOnePerKind(AfterProducerClosed(streams, consumers, producerId))
  {
    var done := ConsumersOf(consumers, producerId);
    forall p | p in AfterProducerClosed(streams, consumers, producerId)
      ensures OnePerKind(AfterProducerClosed(streams, consumers, producerId)[p])
    {
      StripKindsOnePerKind(streams[p], DroppedKinds(consumers, done, p));
    }
  }

  /** Closing a producer never adds participants. */
  lemma ParticipantCountProducerClosed(streams: map<string, seq<Track>>, consumers: map<string, ConsumerInfo>, producerId: string)
    ensures ParticipantCount(AfterProducerClosed(streams, consumers, producerId)) <= ParticipantCount(streams)
  {
    var r := AfterProducerClosed(streams, consumers, producerId);
    assert r.Keys <= streams.Keys;
    SubsetSize(r.Keys, streams.Keys);
  }

  lemma {:induction false} SubsetSize(a: set<string>, b: set<string>)
    requires a <= b
    ensures |a| <= |b|
    decreases b
  {
    if a != {} {
      var x :| x in a;
      SubsetSize(a - {x}, b - {x});
    }
  }

  // ---------------------------------------------------------------------------
  // Producer notices

  /** A `{ producerId, peerId }` notice, from `sfu:newProducer` or from the `getProducers` list. */
  datatype ProducerNotice = ProducerNotice(producerId: Option<string>, peerId: Option<string>)

  /**
   The `sfu:newProducer` handler consumes a notice only if it names a producer
   and a peer, and the peer is not this client (`localId` is the socket id,
   absent while unconnected).
   */
  function AcceptsNewProducer(notice: ProducerNotice, localId: Option<string>): (ok: bool)
    ensures ok ==> notice.peerId.Some? && notice.peerId != localId
    ensures ok <==> Truthy(notice.producerId) && Truthy(notice.peerId) && notice.peerId != localId
  {
    if !Truthy(notice.producerId) || !Truthy(notice.peerId) then false
    else notice.peerId != localId
  }

  /** The notices of the existing-producers list that are not this client's own. */
  function RemoteNotices(notices: seq<ProducerNotice>, localId: Option<string>): (r: seq<ProducerNotice>)
    ensures forall n :: n in r <==> n in notices && n.peerId != localId
    ensures |r| <= |notices|
  {
    if notices == [] then []
    else RemoteNotices(notices[..|notices| - 1], localId)
         + (if notices[|notices| - 1].peerId == localId then [] else [notices[|notices| - 1]])
  }

  /**
   The existing-producers loop of `joinMeeting`: walks the list in order and
   consumes every producer whose peer is not this client. A missing list (or
   a missing `producers` field) consumes nothing.
   */
  method ProducersToConsume(existing: Option<seq<ProducerNotice>>, localId: Option<string>)
    returns (toConsume: seq<ProducerNotice>)
    ensures existing.None? ==> toConsume == []
    ensures existing.Some? ==> toConsume == RemoteNotices(existing.value, localId)
    ensures forall n :: n in toConsume ==> n.peerId != localId
  {
    toConsume := [];
    if existing.Some? && |existing.value| > 0 {
      var list := existing.value;
      for i := 0 to |list|
        invariant toConsume == RemoteNotices(list[..i], localId)
      {
        assert list[..i + 1][..i] == list[..i];
        if list[i].peerId != localId {
          toConsume := toConsume + [list[i]];
        }
      }
      assert list[..|list|] == list;
    }
  }

  /** A notice the event handler accepts is also one the existing-producers loop consumes. */
  lemma AcceptedNoticeIsRemote(notice: ProducerNotice, localId: Option<string>)
    requires AcceptsNewProducer(notice, localId)
    ensures RemoteNotices([notice], localId) == [notice]
  {
    assert [notice][..0] == [];
  }

  // ---------------------------------------------------------------------------
  // Track removal loop

  /**
   The loop `for (const t of s.getTracks()) if (t.kind === kind) s.removeTrack(t)`:
   walks a snapshot of the tracks and removes each one of `kind`.
   */
  method RemoveTracksOfKind(s: seq<Track>, kind: string) returns (r: seq<Track>)
    ensures r == RemoveKind(s, kind)
    ensures forall t :: t in r <==> t in s && t.kind != kind
  {
    r := s;
    ghost var seen: set<Track> := {};
    StripNothing(s);
    ExcludeIsStrip(s, {}, {});
    for i := 0 to |s|
      invariant forall t :: t in seen <==> t in s[..i] && t.kind == kind
      invariant r == Exclude(s, seen)
    {
      assert s[..i + 1] == s[..i] + [s[i]];
      if s[i].kind == kind {
        ExcludeTwice(s, seen, s[i]);
        r := Exclude(r, {s[i]});
        seen := seen + {s[i]};
      }
    }
    assert s[..|s|] == s;
    ExcludeIsStrip(s, seen, {kind});
  }

  // ---------------------------------------------------------------------------
  // The join guard

  /**
   The flags `joinMeeting` consults: whether the page has joined, whether a
   join is under way (`joiningRef`), and, as a ghost of the analysis, how many
   join attempts are actually in progress.
   */
  datatype JoinFlags = JoinFlags(joined: bool, joining: bool, inFlight: nat)

  const NotJoined: JoinFlags := JoinFlags(false, false, 0)

  /** A click on Join, the end of a join attempt (successful or not), or a click on Leave. */
  datatype JoinEvent = Start | Finish(ok: bool) | Leave

  /**
   The guard as written: the early return sits inside the `try` whose
   `finally` clears `joiningRef`, so a rejected click also clears the flag.
   */
  function StepAsWritten(f: JoinFlags, e: JoinEvent): JoinFlags
  {
    match e
    case Start =>
      if f.joined || f.joining then f.(joining := false)
      else f.(joining := true, inFlight := f.inFlight + 1)
    case Finish(ok) => JoinFlags(f.joined || ok, false, if f.inFlight > 0 then f.inFlight - 1 else 0)
    case Leave => f.(joined := false)
  }

  /** The guard as intended: a rejected click changes nothing. */
  function Step(f: JoinFlags, e: JoinEvent): (r: JoinFlags)
    ensures e.Start? && (f.joined || f.joining) ==> r == f
    ensures e.Start? && !f.joined && !f.joining ==> r.joining && r.inFlight == f.inFlight + 1
  {
    match e
    case Start =>
      if f.joined || f.joining then f
      else f.(joining := true, inFlight := f.inFlight + 1)
    case Finish(ok) => JoinFlags(f.joined || ok, false, if f.inFlight > 0 then f.inFlight - 1 else 0)
    case Leave => f.(joined := false)
  }

  function RunAsWritten(events: seq<JoinEvent>): JoinFlags
  {
    if events == [] then NotJoined
    else StepAsWritten(RunAsWritten(events[..|events| - 1]), events[|events| - 1])
  }

  function Run(events: seq<JoinEvent>): JoinFlags
  {
    if events == [] then NotJoined
    else Step(Run(events[..|events| - 1]), events[|events| - 1])
  }

  /**
   As written, three clicks on Join while the first attempt is still awaiting
   the server leave two attempts in progress at once.
   */
  lemma JoinGuardRace()
    ensures RunAsWritten([Start, Start]).inFlight == 1 && !RunAsWritten([Start, Start]).joining
    ensures RunAsWritten([Start, Start, Start]).inFlight == 2
  {
    assert [Start, Start][..1] == [Start];
    assert [Start, Start, Start][..2] == [Start, Start];
    assert [Start][..0] == [];
  }

  /**
   With the intended guard, whatever the page does, at most one join attempt
   is in progress, and `joiningRef` is set exactly while one is.
   */
  lemma {:induction false} JoinGuardHolds(events: seq<JoinEvent>)
    ensures Run(events).inFlight <= 1
    ensures Run(events).joining <==> Run(events).inFlight == 1
  {
    if events != [] {
      JoinGuardHolds(events[..|events| - 1]);
    }
  }

  // ---------------------------------------------------------------------------
  // The page's state

  /** A `close()` the page performs, in order. */
  datatype Closed = ConsumerClosed(consumerId: string) | ProducerClosed(producerId: string) | TransportClosed(transportId: string)

  function ConsumerCloses(order: seq<string>): (r: seq<Closed>)
    ensures |r| == |order|
    ensures forall i :: 0 <= i < |order| ==> r[i] == ConsumerClosed(order[i])
  {
    seq(|order|, i requires 0 <= i < |order| => ConsumerClosed(order[i]))
  }

  function ProducerCloses(order: seq<string>, producers: map<string, string>): (r: seq<Closed>)
    requires forall k :: k in order ==> k in producers
    ensures |r| == |order|
    ensures forall i :: 0 <= i < |order| ==> r[i] == ProducerClosed(producers[order[i]])
  {
    seq(|order|, i requires 0 <= i < |order| => ProducerClosed(producers[order[i]]))
  }

  function TransportCloses(transport: Option<string>): seq<Closed>
  {
    if transport.Some? then [TransportClosed(transport.value)] else []
  }

  /** How a join attempt ended: joined, or failed with the caught error. */
  datatype JoinOutcome = Joined | Failed(err: Option<MediaFailure>)

  class RoomSession {
    var remoteStreams: map<string, seq<Track>>
    var consumers: map<string, ConsumerInfo>
    /** Local producers by kind ("audio", "video") to producer id. */
    var producers: map<string, string>
    var sendTransport: Option<string>
    var recvTransport: Option<string>
    var closed: seq<Closed>
    var joined: bool
    var joining: bool
    /** How many join attempts are in progress; not part of the page, only of the analysis. */
    ghost var inFlight: nat
    var mediaError: string

    ghost function Flags(): JoinFlags
      reads this
    {
      JoinFlags(joined, joining, inFlight)
    }

    /** Each remote stream holds at most one track per kind. */
    ghost predicate Valid()
      reads this
    {
      AllOnePerKind(remoteStreams)
    }

    constructor ()
      ensures Valid()
      ensures remoteStreams == map[] && consumers == map[] && producers == map[]
      ensures sendTransport == None && recvTransport == None && closed == []
      ensures Flags() == NotJoined && mediaError == ""
    {
      remoteStreams, consumers, producers := map[], map[], map[];
      sendTransport, recvTransport := None, None;
      closed := [];
      joined, joining := false, false;
      inFlight := 0;
      mediaError := "";
    }

    /** `getOrCreatePeerStream`: the peer's stream, created empty if it has none. */
    method GetOrCreatePeerStream(peerId: string) returns (s: seq<Track>)
      modifies this`remoteStreams
      ensures old(peerId in remoteStreams) ==> s == old(remoteStreams[peerId]) && remoteStreams == old(remoteStreams)
      ensures old(peerId !in remoteStreams) ==> s == [] && remoteStreams == old(remoteStreams)[peerId := []]
    {
      if peerId in remoteStreams {
        s := remoteStreams[peerId];
      } else {
        s := [];
        remoteStreams := remoteStreams[peerId := s];
      }
    }

    /** `addRemoteTrack`: replace the peer's track of `kind` by `track`. */
    method AddRemoteTrack(peerId: string, kind: string, track: Track)
      modifies this`remoteStreams
      ensures remoteStreams == WithTrack(old(remoteStreams), peerId, kind, track)
      ensures old(Valid()) && track.kind == kind ==> Valid()
    {
      ghost var before := remoteStreams;
      var stream := GetOrCreatePeerStream(peerId);
      assert stream == PeerStream(before, peerId);
      stream := RemoveTracksOfKind(stream, kind);
      stream := AddTrack(stream, track);
      remoteStreams := remoteStreams[peerId := stream];
      if track.kind == kind && AllOnePerKind(before) {
        WithTrackOnePerKind(before, peerId, kind, track);
      }
    }

    /**
     The bookkeeping at the end of `consumeProducer`: remember the consumer and
     show its track (whose kind is the consumer's kind).
     */
    method RecordConsumer(consumerId: string, peerId: string, producerId: string, track: Track)
      modifies this`consumers, this`remoteStreams
      ensures consumers == old(consumers)[consumerId := ConsumerInfo(peerId, producerId, track.kind)]
      ensures remoteStreams == WithTrack(old(remoteStreams), peerId, track.kind, track)
      ensures old(Valid()) ==> Valid()
    {
      consumers := consumers[consumerId := ConsumerInfo(peerId, producerId, track.kind)];
      AddRemoteTrack(peerId, track.kind, track);
    }

    /**
     `removeRemoteProducer`: close and forget every consumer of `producerId`,
     strip its kind from its peer's stream and drop peers left empty. The
     consumers are visited in the order reported in `order`.
     */
    method RemoveRemoteProducer(producerId: string) returns (ghost order: seq<string>)
      modifies this`consumers, this`remoteStreams, this`closed
      ensures consumers == WithoutProducer(old(consumers), producerId)
      ensures remoteStreams == AfterProducerClosed(old(remoteStreams), old(consumers), producerId)
      ensures Enumerates(order, ConsumersOf(old(consumers), producerId))
      ensures closed == old(closed) + ConsumerCloses(order)
      ensures old(Valid()) ==> Valid()
    {
      ghost var C, S := consumers, remoteStreams;
      ghost var matching := ConsumersOf(C, producerId);
      var pending := consumers.Keys;
      ghost var done: set<string> := {};
      order := [];
      StrippedNothing(S, C);
      while pending != {}
        invariant pending <= C.Keys
        invariant done == (C.Keys - pending) * matching
        invariant consumers == C - done
        invariant remoteStreams == Stripped(S, C, done)
        invariant Enumerates(order, done)
        invariant closed == old(closed) + ConsumerCloses(order)
        decreases pending
      {
        var id :| id in pending;
        pending := pending - {id};
        var info := consumers[id];
        if info.producerId == producerId {
          closed := closed + [ConsumerClosed(id)];
          consumers := consumers - {id};
          StrippedStep(S, C, done, id);
          DropTrackKind(info.peerId, info.kind);
          EnumeratesExtend(order, done, id);
          done := done + {id};
          order := order + [id];
        }
      }
      assert done == matching;
      if AllOnePerKind(S) {
        ProducerClosedOnePerKind(S, C, producerId);
      }
    }

    /**
     The inner step of `removeRemoteProducer`: strip `kind` from the peer's
     stream, and forget the peer if its stream is left empty.
     */
    method DropTrackKind(peerId: string, kind: string)
      modifies this`remoteStreams
      ensures remoteStreams == DropKind(old(remoteStreams), peerId, kind)
    {
      if peerId in remoteStreams {
        var rest := RemoveTracksOfKind(remoteStreams[peerId], kind);
        if |rest| == 0 {
          remoteStreams := remoteStreams - {peerId};
        } else {
          remoteStreams := remoteStreams[peerId := rest];
        }
      }
    }

    /** The `sfu:producerClosed` handler: a notice naming a producer removes it. */
    method OnProducerClosed(producerId: Option<string>) returns (ghost order: seq<string>)
      modifies this`consumers, this`remoteStreams, this`closed
      ensures !Truthy(producerId) ==> consumers == old(consumers) && remoteStreams == old(remoteStreams) && closed == old(closed)
      ensures Truthy(producerId) ==>
                && consumers == WithoutProducer(old(consumers), producerId.value)
                && remoteStreams == AfterProducerClosed(old(remoteStreams), old(consumers), producerId.value)
                && Enumerates(order, ConsumersOf(old(consumers), producerId.value))
                && closed == old(closed) + ConsumerCloses(order)
      ensures old(Valid()) ==> Valid()
    {
      order := [];
      if Truthy(producerId) {
        order := RemoveRemoteProducer(producerId.value);
      }
    }

    /** The "user left" handler: forget a named peer's stream. */
    method OnUserLeft(peerId: Option<string>)
      modifies this`remoteStreams
      ensures remoteStreams == if Truthy(peerId) then old(remoteStreams) - {peerId.value} else old(remoteStreams)
      ensures old(Valid()) ==> Valid()
    {
      if Truthy(peerId) {
        remoteStreams := remoteStreams - {peerId.value};
      }
    }

    /** The socket's "disconnect" handler: forget every remote stream. */
    method OnDisconnect()
      modifies this`remoteStreams
      ensures remoteStreams == map[]
      ensures Valid()
    {
      remoteStreams := map[];
    }

    /**
     The guard at the top of `joinMeeting`, as intended: a join already done or
     under way makes the call return at once and changes nothing; otherwise the
     join is marked under way and the previous error is cleared.
     */
    method BeginJoin() returns (proceed: bool)
      modifies this`joining, this`inFlight, this`mediaError
      ensures proceed <==> !joined && !old(joining)
      ensures Flags() == Step(old(Flags()), Start)
      ensures mediaError == if proceed then "" else old(mediaError)
    {
      if joined || joining {
        return false;
      }
      joining := true;
      inFlight := inFlight + 1;
      mediaError := "";
      return true;
    }

    /**
     The end of `joinMeeting`: on success the page is joined; on failure the
     friendly text of the error is shown; in both cases the guard is released.
     */
    method FinishJoin(outcome: JoinOutcome)
      modifies this`joined, this`joining, this`inFlight, this`mediaError
      ensures Flags() == Step(old(Flags()), Finish(outcome.Joined?))
      ensures mediaError == if outcome.Failed? then FriendlyMediaError(outcome.err) else old(mediaError)
      ensures outcome.Failed? ==> mediaError != ""
    {
      match outcome {
        case Joined =>
          joined := true;
        case Failed(err) =>
          mediaError := FriendlyMediaError(err);
      }
      joining := false;
      if inFlight > 0 {
        inFlight := inFlight - 1;
      }
    }

    /** The consumer loop of `leaveMeeting`: close every consumer, in the order reported. */
    method CloseConsumers() returns (ghost order: seq<string>)
      modifies this`closed
      ensures Enumerates(order, consumers.Keys)
      ensures closed == old(closed) + ConsumerCloses(order)
    {
      var pending := consumers.Keys;
      order := [];
      while pending != {}
        invariant pending <= consumers.Keys
        invariant Enumerates(order, consumers.Keys - pending)
        invariant closed == old(closed) + ConsumerCloses(order)
        decreases pending
      {
        var id :| id in pending;
        EnumeratesExtend(order, consumers.Keys - pending, id);
        assert (consumers.Keys - pending) + {id} == consumers.Keys - (pending - {id});
        closed := closed + [ConsumerClosed(id)];
        order := order + [id];
        pending := pending - {id};
      }
    }

    /** The producer loop of `leaveMeeting`: close every local producer, in the order reported. */
    method CloseProducers() returns (ghost order: seq<string>)
      modifies this`closed
      ensures Enumerates(order, producers.Keys)
      ensures closed == old(closed) + ProducerCloses(order, producers)
    {
      var kinds := producers.Keys;
      order := [];
      while kinds != {}
        invariant kinds <= producers.Keys
        invariant Enumerates(order, producers.Keys - kinds)
        invariant closed == old(closed) + ProducerCloses(order, producers)
        decreases kinds
      {
        var kind :| kind in kinds;
        EnumeratesExtend(order, producers.Keys - kinds, kind);
        assert (producers.Keys - kinds) + {kind} == producers.Keys - (kinds - {kind});
        closed := closed + [ProducerClosed(producers[kind])];
        order := order + [kind];
        kinds := kinds - {kind};
      }
    }

    /**
     `leaveMeeting`, as far as the maps go: forget the remote streams, close
     every consumer, then every producer, then the send and the receive
     transports, and forget them all.
     */
    method LeaveMeeting() returns (ghost consumerOrder: seq<string>, ghost producerOrder: seq<string>)
      modifies this`joined, this`remoteStreams, this`consumers, this`producers
      modifies this`sendTransport, this`recvTransport, this`closed
      ensures Flags() == Step(old(Flags()), Leave)
      ensures remoteStreams == map[] && consumers == map[] && producers == map[]
      ensures sendTransport == None && recvTransport == None
      ensures Enumerates(consumerOrder, old(consumers).Keys)
      ensures Enumerates(producerOrder, old(producers).Keys)
      ensures closed == old(closed) + ConsumerCloses(consumerOrder)
                        + ProducerCloses(producerOrder, old(producers))
                        + TransportCloses(old(sendTransport)) + TransportCloses(old(recvTransport))
      ensures Valid()
    {
      joined := false;
      remoteStreams := map[];

      consumerOrder := CloseConsumers();
      consumers := map[];
      producerOrder := CloseProducers();
      producers := map[];

      if sendTransport.Some? {
        closed := closed + [TransportClosed(sendTransport.value)];
      }
      if recvTransport.Some? {
        closed := closed + [TransportClosed(recvTransport.value)];
      }
      sendTransport, recvTransport := None, None;
    }
  }
}
