/**
 Remote media as the browser presents it to the client: a `MediaStream` is an
 ordered list of tracks, each with a kind ("audio" or "video"), an id and a
 ready state. The filters here are the ones the client applies to a stream's
 track list: keep the tracks of one kind (`getAudioTracks`), drop the tracks of
 some kinds (the `removeTrack` loops), add a track (`addTrack`).
 */
module Media {

  datatype Option<T> = None | Some(value: T)

  datatype ReadyState = Live | Ended

  /** The `readyState` attribute as the string the browser reports. */
  function ReadyStateText(r: ReadyState): string
  {
    match r
    case Live => "live"
    case Ended => "ended"
  }

  datatype Track = Track(kind: string, id: string, readyState: ReadyState)

  /**
   A track whose kind and id contain neither of the signature delimiters ':'
   and '|'. This is the hypothesis under which a signature determines its
   tracks; the model does not claim that every track id meets it.
   */
  predicate Delimited(t: Track)
  {
    ':' !in t.kind && ':' !in t.id && '|' !in t.kind && '|' !in t.id
  }

  /** The tracks of one kind, in stream order (`getAudioTracks` for "audio"). */
  function OfKind(s: seq<Track>, kind: string): (r: seq<Track>)
    ensures forall t :: t in r <==> t in s && t.kind == kind
    ensures |r| <= |s|
  {
    if s == [] then []
    else (if s[0].kind == kind then [s[0]] else []) + OfKind(s[1..], kind)
  }

  /** The tracks whose kind is not in `kinds`, in stream order. */
  function StripKinds(s: seq<Track>, kinds: set<string>): (r: seq<Track>)
    ensures forall t :: t in r <==> t in s && t.kind !in kinds
    ensures |r| <= |s|
  {
    if s == [] then []
    else (if s[0].kind in kinds then [] else [s[0]]) + StripKinds(s[1..], kinds)
  }

  /** What is left of a stream once every track of `kind` has been removed. */
  function RemoveKind(s: seq<Track>, kind: string): seq<Track>
  {
    StripKinds(s, {kind})
  }

  /** The stream without the tracks in `xs`; `MediaStream.removeTrack(t)` is `Exclude(s, {t})`. */
  function Exclude(s: seq<Track>, xs: set<Track>): (r: seq<Track>)
    ensures forall t :: t in r <==> t in s && t !in xs
  {
    if s == [] then []
    else (if s[0] in xs then [] else [s[0]]) + Exclude(s[1..], xs)
  }

  lemma {:induction false} ExcludeTwice(s: seq<Track>, xs: set<Track>, t: Track)
    ensures Exclude(Exclude(s, xs), {t}) == Exclude(s, xs + {t})
    decreases |s|
  {
    if s != [] {
      ExcludeTwice(s[1..], xs, t);
      var head := if s[0] in xs then [] else [s[0]];
      ExcludeAppend(head, Exclude(s[1..], xs), {t});
    }
  }

  lemma {:induction false} ExcludeAppend(s: seq<Track>, u: seq<Track>, xs: set<Track>)
    ensures Exclude(s + u, xs) == Exclude(s, xs) + Exclude(u, xs)
    decreases |s|
  {
    if s != [] {
      var head := if s[0] in xs then [] else [s[0]];
      assert (s + u)[0] == s[0];
      assert (s + u)[1..] == s[1..] + u;
      assert Exclude(s + u, xs) == head + Exclude(s[1..] + u, xs);
      ExcludeAppend(s[1..], u, xs);
      assert Exclude(s, xs) == head + Exclude(s[1..], xs);
    } else {
      assert s + u == u;
    }
  }

  /** Excluding exactly the stream's tracks of some kinds is stripping those kinds. */
  lemma {:induction false} ExcludeIsStrip(s: seq<Track>, xs: set<Track>, kinds: set<string>)
    requires forall t :: t in s ==> (t in xs <==> t.kind in kinds)
    ensures Exclude(s, xs) == StripKinds(s, kinds)
    decreases |s|
  {
    if s != [] {
      assert s[0] in s;
      ExcludeIsStrip(s[1..], xs, kinds);
    }
  }

  /** `MediaStream.addTrack`: a track already in the stream is not added twice. */
  function AddTrack(s: seq<Track>, t: Track): (r: seq<Track>)
    ensures t in r
    ensures forall u :: u in r <==> u in s || u == t
  {
    if t in s then s else s + [t]
  }

  /** At most one track of each kind: what the client keeps per remote peer. */
  ghost predicate OnePerKind(s: seq<Track>)
  {
    forall k :: |OfKind(s, k)| <= 1
  }

  lemma {:induction false} OfKindAppend(s: seq<Track>, u: seq<Track>, kind: string)
    ensures OfKind(s + u, kind) == OfKind(s, kind) + OfKind(u, kind)
    decreases |s|
  {
    if s != [] {
      assert (s + u)[1..] == s[1..] + u;
      OfKindAppend(s[1..], u, kind);
    } else {
      assert s + u == u;
    }
  }

  lemma {:induction false} OfKindAbsent(s: seq<Track>, kind: string)
    requires forall t :: t in s ==> t.kind != kind
    ensures OfKind(s, kind) == []
    decreases |s|
  {
    if s != [] {
      assert s[0] in s;
      OfKindAbsent(s[1..], kind);
    }
  }

  /** Filtering by kind after stripping kinds: nothing of a stripped kind, the rest untouched. */
  lemma {:induction false} OfKindStripKinds(s: seq<Track>, kinds: set<string>, kind: string)
    ensures OfKind(StripKinds(s, kinds), kind) == if kind in kinds then [] else OfKind(s, kind)
    decreases |s|
  {
    if s != [] {
      OfKindStripKinds(s[1..], kinds, kind);
      var head := if s[0].kind in kinds then [] else [s[0]];
      OfKindAppend(head, StripKinds(s[1..], kinds), kind);
    }
  }

  lemma {:induction false} StripNothing(s: seq<Track>)
    ensures StripKinds(s, {}) == s
    decreases |s|
  {
    if s != [] {
      StripNothing(s[1..]);
      assert s == [s[0]] + s[1..];
    }
  }

  /** Removing one more kind from a stripped stream is stripping the larger set at once. */
  lemma {:induction false} StripKindsTwice(s: seq<Track>, kinds: set<string>, kind: string)
    ensures RemoveKind(StripKinds(s, kinds), kind) == StripKinds(s, kinds + {kind})
    decreases |s|
  {
    if s != [] {
      StripKindsTwice(s[1..], kinds, kind);
      var head := if s[0].kind in kinds then [] else [s[0]];
      StripKindsAppend(head, StripKinds(s[1..], kinds), {kind});
    }
  }

  lemma {:induction false} StripKindsAppend(s: seq<Track>, u: seq<Track>, kinds: set<string>)
    ensures StripKinds(s + u, kinds) == StripKinds(s, kinds) + StripKinds(u, kinds)
    decreases |s|
  {
    if s != [] {
      assert (s + u)[1..] == s[1..] + u;
      StripKindsAppend(s[1..], u, kinds);
    } else {
      assert s + u == u;
    }
  }

  /** Stripping preserves "at most one track per kind". */
  lemma StripKindsOnePerKind(s: seq<Track>, kinds: set<string>)
    requires OnePerKind(s)
    ensures OnePerKind(StripKinds(s, kinds))
  {
    forall k ensures |OfKind(StripKinds(s, kinds), k)| <= 1 {
      OfKindStripKinds(s, kinds, k);
    }
  }

  /** Counting form of `OfKind`: a track occurs as often as in the stream if it has the kind, else never. */
  lemma {:induction false} OfKindCount(s: seq<Track>, kind: string, t: Track)
    ensures multiset(OfKind(s, kind))[t] == if t.kind == kind then multiset(s)[t] else 0
    decreases |s|
  {
    if s != [] {
      OfKindCount(s[1..], kind, t);
      assert s == [s[0]] + s[1..];
      var head := if s[0].kind == kind then [s[0]] else [];
      assert OfKind(s, kind) == head + OfKind(s[1..], kind);
      assert multiset(OfKind(s, kind)) == multiset(head) + multiset(OfKind(s[1..], kind));
      assert multiset(s) == multiset{s[0]} + multiset(s[1..]);
    }
  }

  /** Reordering a stream reorders its tracks of each kind. */
  lemma OfKindPermutation(s: seq<Track>, u: seq<Track>, kind: string)
    requires multiset(s) == multiset(u)
    ensures multiset(OfKind(s, kind)) == multiset(OfKind(u, kind))
  {
    forall t ensures multiset(OfKind(s, kind))[t] == multiset(OfKind(u, kind))[t] {
      OfKindCount(s, kind, t);
      OfKindCount(u, kind, t);
    }
  }

  /** The entries a signature helper builds: one string per track, in stream order. */
  function Entries(s: seq<Track>, entry: Track -> string): (r: seq<string>)
    ensures |r| == |s|
  {
    if s == [] then [] else [entry(s[0])] + Entries(s[1..], entry)
  }

  /** Each track contributes exactly the entry built from it, at its own position. */
  lemma {:induction false} EntriesAt(s: seq<Track>, entry: Track -> string, i: nat)
    requires i < |s|
    ensures Entries(s, entry)[i] == entry(s[i])
    decreases i
  {
    if i > 0 {
      EntriesAt(s[1..], entry, i - 1);
    }
  }

  lemma {:induction false} EntriesAppend(s: seq<Track>, u: seq<Track>, entry: Track -> string)
    ensures Entries(s + u, entry) == Entries(s, entry) + Entries(u, entry)
    decreases |s|
  {
    if s != [] {
      assert (s + u)[1..] == s[1..] + u;
      EntriesAppend(s[1..], u, entry);
    } else {
      assert s + u == u;
    }
  }

  /** Reordering the tracks reorders the entries. */
  lemma {:induction false} EntriesPermutation(s: seq<Track>, u: seq<Track>, entry: Track -> string)
    requires multiset(s) == multiset(u)
    ensures multiset(Entries(s, entry)) == multiset(Entries(u, entry))
    decreases |s|
  {
    if s == [] {
      assert |multiset(u)| == 0;
      assert u == [];
    } else {
      assert s[0] in multiset(u);
      var j :| 0 <= j < |u| && u[j] == s[0];
      var rest := u[..j] + u[j + 1..];
      assert u == u[..j] + [u[j]] + u[j + 1..];
      assert s == [s[0]] + s[1..];
      assert multiset(u) == multiset(rest) + multiset{s[0]};
      assert multiset(s) == multiset(s[1..]) + multiset{s[0]};
      assert multiset(s[1..]) == multiset(s) - multiset{s[0]};
      assert multiset(rest) == multiset(u) - multiset{s[0]};
      EntriesPermutation(s[1..], rest, entry);
      EntriesAppend(u[..j] + [u[j]], u[j + 1..], entry);
      EntriesAppend(u[..j], [u[j]], entry);
      EntriesAppend(u[..j], u[j + 1..], entry);
    }
  }

  /** Taking the track at `j` out of a stream takes its entry out of the entries. */
  lemma {:induction false} EntriesRemoveAt(u: seq<Track>, j: nat, entry: Track -> string)
    requires j < |u|
    ensures multiset(Entries(u, entry)) == multiset(Entries(u[..j] + u[j + 1..], entry)) + multiset{entry(u[j])}
  {
    var a, x, b := u[..j], u[j], u[j + 1..];
    assert u == (a + [x]) + b;
    EntriesAppend(a + [x], b, entry);
    EntriesAppend(a, [x], entry);
    EntriesAppend(a, b, entry);
    var ea, ex, eb := Entries(a, entry), Entries([x], entry), Entries(b, entry);
    assert ex == [entry(x)];
    assert Entries(u, entry) == ea + ex + eb;
    assert Entries(a + b, entry) == ea + eb;
    assert multiset(ea + ex + eb) == multiset(ea + eb) + multiset(ex);
  }

  /** `entry` gives different tracks of `s` and `u` different entries. */
  ghost predicate Separates(entry: Track -> string, s: seq<Track>, u: seq<Track>)
  {
    forall t1, t2 :: t1 in s && t2 in u && entry(t1) == entry(t2) ==> t1 == t2
  }

  /** The track of `u` whose entry is the first entry of `s` is the first track of `s`. */
  lemma {:induction false} MatchFirst(s: seq<Track>, u: seq<Track>, entry: Track -> string) returns (j: nat)
    requires s != []
    requires Separates(entry, s, u)
    requires multiset(Entries(s, entry)) == multiset(Entries(u, entry))
    ensures j < |u| && u[j] == s[0]
  {
    var es, eu := Entries(s, entry), Entries(u, entry);
    assert es[0] in multiset(eu);
    var k :| 0 <= k < |u| && eu[k] == es[0];
    EntriesAt(u, entry, k);
    EntriesAt(s, entry, 0);
    assert s[0] in s && u[k] in u;
    j := k;
  }

  lemma Cancel<T>(a: multiset<T>, b: multiset<T>, x: T)
    requires a + multiset{x} == b + multiset{x}
    ensures a == b
  {
    assert a == (a + multiset{x}) - multiset{x};
  }

  lemma Reassemble(s: seq<Track>, u: seq<Track>, j: nat)
    requires s != [] && j < |u| && u[j] == s[0]
    requires multiset(s[1..]) == multiset(u[..j] + u[j + 1..])
    ensures multiset(s) == multiset(u)
  {
    RemoveAtMultiset(u, j);
    assert s == [s[0]] + s[1..];
  }

  lemma RemoveAtMultiset(u: seq<Track>, j: nat)
    requires j < |u|
    ensures multiset(u) == multiset(u[..j] + u[j + 1..]) + multiset{u[j]}
  {
    assert u == u[..j] + [u[j]] + u[j + 1..];
  }

  lemma SeparatesShrink(entry: Track -> string, s: seq<Track>, u: seq<Track>, j: nat)
    requires Separates(entry, s, u)
    requires s != [] && j < |u|
    ensures Separates(entry, s[1..], u[..j] + u[j + 1..])
  {
    var rest := u[..j] + u[j + 1..];
    forall t1, t2 | t1 in s[1..] && t2 in rest && entry(t1) == entry(t2) ensures t1 == t2 {
      assert t1 in s;
      assert t2 in u[..j] || t2 in u[j + 1..];
    }
  }

  /** When the entry function tells tracks apart, equal entry multisets come from equal track multisets. */
  lemma {:induction false} EntriesPermutationConverse(s: seq<Track>, u: seq<Track>, entry: Track -> string)
    requires Separates(entry, s, u)
    requires multiset(Entries(s, entry)) == multiset(Entries(u, entry))
    ensures multiset(s) == multiset(u)
    decreases |s|
  {
    if s == [] {
      var eu := Entries(u, entry);
      assert |multiset(eu)| == 0;
      assert |u| == |eu| == 0;
    } else {
      var j := MatchFirst(s, u, entry);
      var rest := u[..j] + u[j + 1..];
      var x := entry(s[0]);
      var es, eu, etail, erest := Entries(s, entry), Entries(u, entry), Entries(s[1..], entry), Entries(rest, entry);
      EntriesRemoveAt(u, j, entry);
      assert es == [x] + etail;
      Cancel(multiset(etail), multiset(erest), x);
      SeparatesShrink(entry, s, u, j);
      EntriesPermutationConverse(s[1..], rest, entry);
      Reassemble(s, u, j);
    }
  }

  lemma ReadyStateTextInjective(r1: ReadyState, r2: ReadyState)
    requires ReadyStateText(r1) == ReadyStateText(r2)
    ensures r1 == r2
  {
  }
}
