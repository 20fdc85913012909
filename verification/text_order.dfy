/**
 The string machinery behind the signature helpers: JavaScript's default
 `Array.prototype.sort` order on strings (lexicographic, character by
 character), a sort that realises it, and `join`/`split` on a one-character
 separator. The central facts are that the sorted order of a list depends only
 on its multiset of elements, and that joining can be undone by splitting when
 no part contains the separator.
 */
module TextOrder {

  /** Lexicographic "less than or equal" on strings, as the default sort compares them. */
  predicate LexLe(a: string, b: string)
    decreases |a|
  {
    |a| == 0 || (|b| > 0 && (a[0] < b[0] || (a[0] == b[0] && LexLe(a[1..], b[1..]))))
  }

  lemma {:induction false} LexLeRefl(a: string)
    ensures LexLe(a, a)
    decreases |a|
  {
    if |a| > 0 {
      LexLeRefl(a[1..]);
    }
  }

  lemma {:induction false} LexLeTotal(a: string, b: string)
    ensures LexLe(a, b) || LexLe(b, a)
    decreases |a|
  {
    if |a| > 0 && |b| > 0 && a[0] == b[0] {
      LexLeTotal(a[1..], b[1..]);
    }
  }

  lemma {:induction false} LexLeAntisym(a: string, b: string)
    requires LexLe(a, b) && LexLe(b, a)
    ensures a == b
    decreases |a|
  {
    if |a| > 0 {
      LexLeAntisym(a[1..], b[1..]);
      assert a == [a[0]] + a[1..];
      assert b == [b[0]] + b[1..];
    }
  }

  lemma {:induction false} LexLeTrans(a: string, b: string, c: string)
    requires LexLe(a, b) && LexLe(b, c)
    ensures LexLe(a, c)
    decreases |a|
  {
    if |a| > 0 && a[0] == b[0] && b[0] == c[0] {
      LexLeTrans(a[1..], b[1..], c[1..]);
    }
  }

  predicate Sorted(s: seq<string>)
  {
    forall i, j :: 0 <= i < j < |s| ==> LexLe(s[i], s[j])
  }

  /** Inserts `x` into a sorted list, keeping it sorted. */
  function Insert(x: string, s: seq<string>): (r: seq<string>)
    requires Sorted(s)
    ensures Sorted(r)
    ensures multiset(r) == multiset(s) + multiset{x}
  {
    if s == [] then
      [x]
    else if LexLe(x, s[0]) then
      assert forall j :: 0 <= j < |s| ==> LexLe(x, s[j]) by {
        forall j | 0 <= j < |s| ensures LexLe(x, s[j]) {
          if j > 0 { LexLeTrans(x, s[0], s[j]); }
        }
      }
      assert s == [s[0]] + s[1..];
      [x] + s
    else
      LexLeTotal(x, s[0]);
      var rest := Insert(x, s[1..]);
      assert forall e :: e in rest ==> LexLe(s[0], e) by {
        forall e | e in rest ensures LexLe(s[0], e) {
          assert e in multiset(rest);
          if e != x {
            assert e in multiset(s[1..]);
            var j :| 0 <= j < |s[1..]| && s[1..][j] == e;
            assert s[j + 1] == e;
          }
        }
      }
      assert s == [s[0]] + s[1..];
      ConsSorted(s[0], rest);
      [s[0]] + rest
  }

  lemma ConsSorted(y: string, r: seq<string>)
    requires Sorted(r)
    requires forall e :: e in r ==> LexLe(y, e)
    ensures Sorted([y] + r)
  {
    var s := [y] + r;
    forall i, j | 0 <= i < j < |s| ensures LexLe(s[i], s[j]) {
      if i > 0 {
        assert s[i] == r[i - 1] && s[j] == r[j - 1];
      } else {
        assert s[j] == r[j - 1];
        assert r[j - 1] in r;
      }
    }
  }

  /** The sort the signature helpers apply: an insertion sort by `LexLe`. */
  function Sort(s: seq<string>): (r: seq<string>)
    ensures Sorted(r)
    ensures multiset(r) == multiset(s)
  {
    if s == [] then []
    else
      assert s == [s[0]] + s[1..];
      Insert(s[0], Sort(s[1..]))
  }

  /** A sorted arrangement of a multiset is unique, so every correct sort agrees with `Sort`. */
  lemma {:induction false} SortedUnique(a: seq<string>, b: seq<string>)
    requires Sorted(a) && Sorted(b)
    requires multiset(a) == multiset(b)
    ensures a == b
    decreases |a|
  {
    if a == [] {
      assert |multiset(b)| == 0;
    } else {
      assert a[0] in multiset(b);
      assert b != [];
      assert b[0] in multiset(a);
      var k :| 0 <= k < |b| && b[k] == a[0];
      var m :| 0 <= m < |a| && a[m] == b[0];
      if k > 0 { assert LexLe(b[0], b[k]); } else { LexLeRefl(b[0]); }
      if m > 0 { assert LexLe(a[0], a[m]); } else { LexLeRefl(a[0]); }
      LexLeAntisym(a[0], b[0]);
      assert a == [a[0]] + a[1..];
      assert b == [b[0]] + b[1..];
      assert multiset(a) == multiset{a[0]} + multiset(a[1..]);
      assert multiset(b) == multiset{b[0]} + multiset(b[1..]);
      assert multiset(a[1..]) == multiset(a) - multiset{a[0]};
      assert multiset(b[1..]) == multiset(b) - multiset{b[0]};
      SortedTail(a);
      SortedTail(b);
      SortedUnique(a[1..], b[1..]);
    }
  }

  lemma SortedTail(s: seq<string>)
    requires Sorted(s) && s != []
    ensures Sorted(s[1..])
  {
    forall i, j | 0 <= i < j < |s| - 1 ensures LexLe(s[1..][i], s[1..][j]) {
      assert s[1..][i] == s[i + 1] && s[1..][j] == s[j + 1];
    }
  }

  /** Sorting forgets the original order: permutations sort to the same list. */
  lemma SortPermutation(a: seq<string>, b: seq<string>)
    requires multiset(a) == multiset(b)
    ensures Sort(a) == Sort(b)
  {
    SortedUnique(Sort(a), Sort(b));
  }

  /** `parts.join(sep)` for a one-character separator. */
  function Join(parts: seq<string>, sep: char): string
  {
    if |parts| == 0 then ""
    else if |parts| == 1 then parts[0]
    else parts[0] + [sep] + Join(parts[1..], sep)
  }

  /** The position of the first occurrence of `c` in `s`. */
  function IndexOf(s: string, c: char): (i: nat)
    requires c in s
    ensures i < |s| && s[i] == c && c !in s[..i]
  {
    if s[0] == c then 0
    else
      assert c in s[1..];
      var j := IndexOf(s[1..], c);
      assert s[..j + 1] == [s[0]] + s[1..][..j];
      j + 1
  }

  /** `s.split(sep)`: the pieces between separators, at least one. */
  function Split(s: string, sep: char): (r: seq<string>)
    ensures |r| >= 1
    decreases |s|
  {
    if sep in s then
      var i := IndexOf(s, sep);
      [s[..i]] + Split(s[i + 1..], sep)
    else [s]
  }

  /** Splitting undoes joining when no part contains the separator. */
  lemma {:induction false} SplitJoin(parts: seq<string>, sep: char)
    requires |parts| >= 1
    requires forall p :: p in parts ==> sep !in p
    ensures Split(Join(parts, sep), sep) == parts
    decreases |parts|
  {
    if |parts| > 1 {
      var p0, rest := parts[0], Join(parts[1..], sep);
      var s := p0 + [sep] + rest;
      assert parts[0] in parts;
      assert s[|p0|] == sep;
      var i := IndexOf(s, sep);
      assert s[..i] == p0;
      assert s[i + 1..] == rest;
      forall p | p in parts[1..] ensures sep !in p {
        assert p in parts;
      }
      SplitJoin(parts[1..], sep);
    } else {
      assert parts[0] in parts;
    }
  }

  /** Two strings that agree around their first `mark` agree on both sides of it. */
  lemma SplitAtMark(a1: string, b1: string, a2: string, b2: string, mark: char)
    requires mark !in a1 && mark !in a2
    requires a1 + [mark] + b1 == a2 + [mark] + b2
    ensures a1 == a2 && b1 == b2
  {
    var e := a1 + [mark] + b1;
    var e2 := a2 + [mark] + b2;
    assert e[|a1|] == mark;
    var i := IndexOf(e, mark);
    assert e[..i] == a1;
    assert e2[|a2|] == mark;
    assert e2[..i] == a2;
    assert e[i + 1..] == b1;
    assert e2[i + 1..] == b2;
  }

  /** A join of a non-empty list starts with its first part. */
  lemma {:induction false} JoinStartsWithHead(parts: seq<string>, sep: char)
    requires |parts| >= 1
    ensures parts[0] <= Join(parts, sep)
  {
  }

  /** `entries.sort().join(sep)`: the signature format every helper shares. */
  function SortedJoin(entries: seq<string>, sep: char): string
  {
    Join(Sort(entries), sep)
  }

  /** The joined signature depends only on the multiset of entries. */
  lemma SortedJoinPermutation(a: seq<string>, b: seq<string>, sep: char)
    requires multiset(a) == multiset(b)
    ensures SortedJoin(a, sep) == SortedJoin(b, sep)
  {
    SortPermutation(a, b);
  }

  /**
   Conversely, when no entry contains the separator, equal signatures come from
   the same multiset of entries (provided every entry is non-empty, so that an
   empty list is told apart from a list of empty strings).
   */
  lemma SortedJoinInjective(a: seq<string>, b: seq<string>, sep: char)
    requires forall e :: e in a ==> sep !in e && e != ""
    requires forall e :: e in b ==> sep !in e && e != ""
    requires SortedJoin(a, sep) == SortedJoin(b, sep)
    ensures multiset(a) == multiset(b)
  {
    var sa, sb := Sort(a), Sort(b);
    forall e | e in sa ensures sep !in e && e != "" {
      assert e in multiset(sa);
    }
    forall e | e in sb ensures sep !in e && e != "" {
      assert e in multiset(sb);
    }
    if sa == [] || sb == [] {
      if sa != [] {
        assert sa[0] in sa;
        JoinStartsWithHead(sa, sep);
      }
      if sb != [] {
        assert sb[0] in sb;
        JoinStartsWithHead(sb, sep);
      }
      assert sa == sb;
    } else {
      SplitJoin(sa, sep);
      SplitJoin(sb, sep);
    }
    assert multiset(a) == multiset(sa) == multiset(sb) == multiset(b);
  }

  /** A signature built from entries that all contain `mark` is empty or contains `mark`. */
  lemma SortedJoinMarked(entries: seq<string>, sep: char, mark: char)
    requires forall e :: e in entries ==> mark in e
    ensures |entries| == 0 <==> SortedJoin(entries, sep) == ""
    ensures |entries| > 0 ==> mark in SortedJoin(entries, sep)
  {
    var s := Sort(entries);
    if |entries| > 0 {
      assert |multiset(s)| == |multiset(entries)|;
      assert s[0] in multiset(entries);
      assert s[0] in entries;
      JoinStartsWithHead(s, sep);
      var k :| 0 <= k < |s[0]| && s[0][k] == mark;
      assert Join(s, sep)[k] == mark;
    } else {
      assert s == [];
    }
  }
}
