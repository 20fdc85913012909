/**
 The track signatures the video and audio tiles memoise on
 (client/src/components/VideoTile.jsx, client/src/components/AudioTile.jsx).
 A tile re-attaches its stream whenever the signature changes, so what matters
 is which changes of a stream change its signature: exactly the changes of the
 multiset of (well-delimited) tracks, never a mere reordering.
 */
module Tiles {
  import opened Media
  import TextOrder

  /** A VideoTile entry: `kind:id:readyState`. */
  function VideoEntry(t: Track): string
  {
    t.kind + ":" + t.id + ":" + ReadyStateText(t.readyState)
  }

  /** An AudioTile entry: `id:readyState`. */
  function AudioEntry(t: Track): string
  {
    t.id + ":" + ReadyStateText(t.readyState)
  }

  lemma VideoEntryShape(t: Track)
    ensures ':' in VideoEntry(t)
    ensures Delimited(t) ==> '|' !in VideoEntry(t)
  {
    assert VideoEntry(t)[|t.kind|] == ':';
  }

  lemma AudioEntryShape(t: Track)
    ensures ':' in AudioEntry(t)
    ensures Delimited(t) ==> '|' !in AudioEntry(t)
  {
    assert AudioEntry(t)[|t.id|] == ':';
  }

  /** Distinct delimited tracks have distinct VideoTile entries. */
  lemma VideoEntryInjective(t1: Track, t2: Track)
    requires Delimited(t1) && Delimited(t2)
    requires VideoEntry(t1) == VideoEntry(t2)
    ensures t1 == t2
  {
    var r1, r2 := ReadyStateText(t1.readyState), ReadyStateText(t2.readyState);
    assert VideoEntry(t1) == t1.kind + [':'] + (t1.id + [':'] + r1);
    assert VideoEntry(t2) == t2.kind + [':'] + (t2.id + [':'] + r2);
    TextOrder.SplitAtMark(t1.kind, t1.id + [':'] + r1, t2.kind, t2.id + [':'] + r2, ':');
    TextOrder.SplitAtMark(t1.id, r1, t2.id, r2, ':');
    ReadyStateTextInjective(t1.readyState, t2.readyState);
  }

  /** Distinct delimited tracks have distinct AudioTile entries. */
  lemma AudioEntryInjective(t1: Track, t2: Track)
    requires Delimited(t1) && Delimited(t2) && t1.kind == t2.kind
    requires AudioEntry(t1) == AudioEntry(t2)
    ensures t1 == t2
  {
    var r1, r2 := ReadyStateText(t1.readyState), ReadyStateText(t2.readyState);
    TextOrder.SplitAtMark(t1.id, r1, t2.id, r2, ':');
    ReadyStateTextInjective(t1.readyState, t2.readyState);
  }

  lemma VideoEntriesShape(ts: seq<Track>)
    ensures forall e :: e in Entries(ts, VideoEntry) ==> ':' in e && e != ""
    ensures (forall t :: t in ts ==> Delimited(t)) ==>
              forall e :: e in Entries(ts, VideoEntry) ==> '|' !in e
  {
    var es := Entries(ts, VideoEntry);
    forall i | 0 <= i < |es|
      ensures ':' in es[i] && es[i] != ""
      ensures Delimited(ts[i]) ==> '|' !in es[i]
    {
      EntriesAt(ts, VideoEntry, i);
      VideoEntryShape(ts[i]);
    }
  }

  lemma AudioEntriesShape(ts: seq<Track>)
    ensures forall e :: e in Entries(ts, AudioEntry) ==> ':' in e && e != ""
    ensures (forall t :: t in ts ==> Delimited(t)) ==>
              forall e :: e in Entries(ts, AudioEntry) ==> '|' !in e
  {
    var es := Entries(ts, AudioEntry);
    forall i | 0 <= i < |es|
      ensures ':' in es[i] && es[i] != ""
      ensures Delimited(ts[i]) ==> '|' !in es[i]
    {
      EntriesAt(ts, AudioEntry, i);
      AudioEntryShape(ts[i]);
    }
  }

  /**
   `getTrackSig`: "none" for an absent stream, otherwise the sorted entries of
   all tracks joined by "|". The sentinel "none" cannot collide with a real
   signature, and the empty string is the signature of a stream with no tracks.
   */
  function TrackSig(stream: Option<seq<Track>>): (sig: string)
    ensures sig == "none" <==> stream.None?
    ensures stream.Some? ==> (sig == "" <==> stream.value == [])
  {
    match stream
    case None => "none"
    case Some(ts) =>
      VideoEntriesShape(ts);
      TextOrder.SortedJoinMarked(Entries(ts, VideoEntry), '|', ':');
      assert ':' !in "none";
      TextOrder.SortedJoin(Entries(ts, VideoEntry), '|')
  }

  /** The `tracks: N` label of a tile: zero exactly when the signature is "none" or empty. */
  function TrackCount(stream: Option<seq<Track>>): (n: nat)
    ensures n == 0 <==> TrackSig(stream) == "none" || TrackSig(stream) == ""
    ensures stream.Some? ==> n == |Entries(stream.value, VideoEntry)|
  {
    match stream
    case None => 0
    case Some(ts) => |ts|
  }

  /** Reordering a stream's tracks never changes its VideoTile signature. */
  lemma TrackSigPermutation(ts: seq<Track>, us: seq<Track>)
    requires multiset(ts) == multiset(us)
    ensures TrackSig(Some(ts)) == TrackSig(Some(us))
  {
    EntriesPermutation(ts, us, VideoEntry);
    TextOrder.SortedJoinPermutation(Entries(ts, VideoEntry), Entries(us, VideoEntry), '|');
  }

  /**
   For delimited tracks the signature changes exactly when the multiset of
   tracks changes: a track added, removed, or changing its ready state.
   */
  lemma TrackSigExact(ts: seq<Track>, us: seq<Track>)
    requires forall t :: t in ts ==> Delimited(t)
    requires forall t :: t in us ==> Delimited(t)
    ensures TrackSig(Some(ts)) == TrackSig(Some(us)) <==> multiset(ts) == multiset(us)
  {
    if TrackSig(Some(ts)) == TrackSig(Some(us)) {
      VideoEntriesShape(ts);
      VideoEntriesShape(us);
      TextOrder.SortedJoinInjective(Entries(ts, VideoEntry), Entries(us, VideoEntry), '|');
      forall t1, t2 | t1 in ts && t2 in us && VideoEntry(t1) == VideoEntry(t2) ensures t1 == t2 {
        VideoEntryInjective(t1, t2);
      }
      EntriesPermutationConverse(ts, us, VideoEntry);
    }
    if multiset(ts) == multiset(us) {
      TrackSigPermutation(ts, us);
    }
  }

  /** The signature splits back into one entry per track, in sorted order. */
  lemma TrackSigSplits(ts: seq<Track>)
    requires ts != []
    requires forall t :: t in ts ==> Delimited(t)
    ensures TextOrder.Split(TrackSig(Some(ts)), '|') == TextOrder.Sort(Entries(ts, VideoEntry))
    ensures |TextOrder.Split(TrackSig(Some(ts)), '|')| == |ts|
  {
    var es := Entries(ts, VideoEntry);
    var sorted := TextOrder.Sort(es);
    VideoEntriesShape(ts);
    forall p | p in sorted ensures '|' !in p {
      assert p in multiset(sorted);
    }
    assert |sorted| == |multiset(sorted)| == |multiset(es)| == |ts|;
    TextOrder.SplitJoin(sorted, '|');
  }

  /**
   `getAudioSig`: "none" for an absent stream, otherwise the sorted entries of
   the audio tracks only, joined by "|".
   */
  function AudioSig(stream: Option<seq<Track>>): (sig: string)
    ensures sig == "none" <==> stream.None?
    ensures stream.Some? ==> (sig == "" <==> OfKind(stream.value, "audio") == [])
  {
    match stream
    case None => "none"
    case Some(ts) =>
      var audio := OfKind(ts, "audio");
      AudioEntriesShape(audio);
      TextOrder.SortedJoinMarked(Entries(audio, AudioEntry), '|', ':');
      assert ':' !in "none";
      TextOrder.SortedJoin(Entries(audio, AudioEntry), '|')
  }

  /** The audio signature depends only on the multiset of audio tracks. */
  lemma AudioSigPermutation(ts: seq<Track>, us: seq<Track>)
    requires multiset(OfKind(ts, "audio")) == multiset(OfKind(us, "audio"))
    ensures AudioSig(Some(ts)) == AudioSig(Some(us))
  {
    var a, b := OfKind(ts, "audio"), OfKind(us, "audio");
    EntriesPermutation(a, b, AudioEntry);
    TextOrder.SortedJoinPermutation(Entries(a, AudioEntry), Entries(b, AudioEntry), '|');
  }

  /** Reordering a stream's tracks never changes its audio signature. */
  lemma AudioSigStreamPermutation(ts: seq<Track>, us: seq<Track>)
    requires multiset(ts) == multiset(us)
    ensures AudioSig(Some(ts)) == AudioSig(Some(us))
  {
    OfKindPermutation(ts, us, "audio");
    AudioSigPermutation(ts, us);
  }

  /** Video (or any non-audio) tracks inserted anywhere leave the audio signature alone. */
  lemma AudioSigIgnoresVideo(before: seq<Track>, extra: seq<Track>, after: seq<Track>)
    requires forall t :: t in extra ==> t.kind != "audio"
    ensures AudioSig(Some(before + extra + after)) == AudioSig(Some(before + after))
  {
    OfKindAppend(before + extra, after, "audio");
    OfKindAppend(before, extra, "audio");
    OfKindAppend(before, after, "audio");
    OfKindAbsent(extra, "audio");
    assert OfKind(before + extra + after, "audio") == OfKind(before + after, "audio");
  }

  /** For delimited tracks the audio signature changes exactly when the audio tracks change. */
  lemma AudioSigExact(ts: seq<Track>, us: seq<Track>)
    requires forall t :: t in ts ==> Delimited(t)
    requires forall t :: t in us ==> Delimited(t)
    ensures AudioSig(Some(ts)) == AudioSig(Some(us)) <==>
              multiset(OfKind(ts, "audio")) == multiset(OfKind(us, "audio"))
  {
    var a, b := OfKind(ts, "audio"), OfKind(us, "audio");
    if AudioSig(Some(ts)) == AudioSig(Some(us)) {
      AudioEntriesShape(a);
      AudioEntriesShape(b);
      TextOrder.SortedJoinInjective(Entries(a, AudioEntry), Entries(b, AudioEntry), '|');
      forall t1, t2 | t1 in a && t2 in b && AudioEntry(t1) == AudioEntry(t2) ensures t1 == t2 {
        AudioEntryInjective(t1, t2);
      }
      EntriesPermutationConverse(a, b, AudioEntry);
    }
    if multiset(a) == multiset(b) {
      AudioSigPermutation(ts, us);
    }
  }
}
