/** The painting-list logic shared by app/page.tsx and app/home/page.tsx: seeding from storage,
    the vote increment, and the descending sort by votes that follows every vote. */
module Artworks {
  import opened Types
  import JsText

  /** The seed artwork's image: a 1x1 PNG as a data URL. */
  const INVISIBLE_DOT_URL: string :=
    "data:image/png;base64,iVBORw0KGgoAAAANSUhEUgAAAAEAAAABCAYAAAAfFcSJAAAADUlEQVR42mP8/5+hHgAHggJ/PchI7wAAAABJRU5ErkJggg=="
  const INVISIBLE_DOT_CRITIQUE: string :=
    "A bold statement on the futility of existence, or perhaps just a speck of dirt on the lens."

  /** `INITIAL_PAINTINGS`; its timestamp is the `Date.now()` taken when the page loads. */
  function InitialPaintings(now: int): seq<Painting> {
    [Painting("1", INVISIBLE_DOT_URL, "The Invisible Dot", "Minimalist Mike",
              Some(INVISIBLE_DOT_CRITIQUE), 5, now)]
  }

  /** The list shown after the load effect: the stored list when the storage key holds one
      (even an empty one), the seed list otherwise. */
  function Loaded(stored: Option<seq<Painting>>, now: int): (r: seq<Painting>)
    ensures stored.None? ==> r == InitialPaintings(now) && |r| == 1
    ensures stored.Some? ==> r == stored.value
  {
    match stored
    case Some(ps) => ps
    case None => InitialPaintings(now)
  }

  /** The record a successful save creates: its id is the save time in decimal, it starts with
      no votes, and an empty critique is left out. */
  function NewPainting(idTime: nat, dataUrl: string, title: string, artist: string, critique: string,
                       now: int): (p: Painting)
    ensures p.id == JsText.Decimal(idTime) && p.votes == 0 && p.timestamp == now
    ensures p.dataUrl == dataUrl && p.title == title && p.artist == artist
    ensures p.critique.None? <==> critique == ""
    ensures p.critique.Some? ==> p.critique.value == critique
  {
    Painting(JsText.Decimal(idTime), dataUrl, title, artist, OrUndefined(critique), 0, now)
  }

  /** `[newPainting, ...paintings]`: the new record first, the old list after it unchanged. */
  function Prepend(ps: seq<Painting>, p: Painting): (r: seq<Painting>)
    ensures |r| == |ps| + 1 && r[0] == p && r[1..] == ps
    ensures multiset(r) == multiset(ps) + multiset{p}
  {
    assert ([p] + ps)[1..] == ps;
    [p] + ps
  }

  /** `p.id === id ? { ...p, votes: p.votes + 1 } : p` */
  function WithVote(p: Painting, id: string): Painting {
    if p.id == id then p.(votes := p.votes + 1) else p
  }

  /** `paintings.map(...)`: exactly the records with the voted id gain one vote; every other field
      and every other record stays as it was. */
  function IncrementVotes(ps: seq<Painting>, id: string): (r: seq<Painting>)
    ensures |r| == |ps|
    ensures forall i :: 0 <= i < |ps| ==>
              r[i].votes == (if ps[i].id == id then ps[i].votes + 1 else ps[i].votes)
              && r[i] == ps[i].(votes := r[i].votes)
  {
    seq(|ps|, i requires 0 <= i < |ps| => WithVote(ps[i], id))
  }

  function Ids(ps: seq<Painting>): (r: seq<string>)
    ensures |r| == |ps|
  {
    seq(|ps|, i requires 0 <= i < |ps| => ps[i].id)
  }

  predicate SortedByVotes(s: seq<Painting>) {
    forall i, j :: 0 <= i < j < |s| ==> s[i].votes >= s[j].votes
  }

  /** `t` with `x` placed right after the last element that has at least as many votes: a scan
      from the back, as insertion into a stably sorted list. */
  function InsertByVotes(t: seq<Painting>, x: Painting): (r: seq<Painting>)
    ensures |r| == |t| + 1
    decreases |t|
  {
    if t == [] || t[|t| - 1].votes >= x.votes then t + [x]
    else InsertByVotes(t[..|t| - 1], x) + [t[|t| - 1]]
  }

  lemma {:induction false} InsertByVotesPermutes(t: seq<Painting>, x: Painting)
    ensures multiset(InsertByVotes(t, x)) == multiset(t) + multiset{x}
    decreases |t|
  {
    if t != [] && t[|t| - 1].votes < x.votes {
      InsertByVotesPermutes(t[..|t| - 1], x);
      assert t == t[..|t| - 1] + [t[|t| - 1]];
    }
  }

  /** `updated.sort((a, b) => b.votes - a.votes)`: a stable sort, most votes first. */
  function SortByVotes(s: seq<Painting>): (r: seq<Painting>)
    ensures |r| == |s|
    decreases |s|
  {
    if s == [] then [] else InsertByVotes(SortByVotes(s[..|s| - 1]), s[|s| - 1])
  }

  /** The sort only reorders: the sorted list is a permutation of its input. */
  lemma {:induction false} SortByVotesPermutes(s: seq<Painting>)
    ensures multiset(SortByVotes(s)) == multiset(s)
    decreases |s|
  {
    if s != [] {
      SortByVotesPermutes(s[..|s| - 1]);
      InsertByVotesPermutes(SortByVotes(s[..|s| - 1]), s[|s| - 1]);
      assert s == s[..|s| - 1] + [s[|s| - 1]];
    }
  }

  lemma {:induction false} InsertKeepsSorted(t: seq<Painting>, x: Painting)
    requires SortedByVotes(t)
    ensures SortedByVotes(InsertByVotes(t, x))
    decreases |t|
  {
    if t != [] && t[|t| - 1].votes < x.votes {
      var init, last := t[..|t| - 1], t[|t| - 1];
      InsertKeepsSorted(init, x);
      InsertByVotesPermutes(init, x);
      var u := InsertByVotes(init, x);
      forall k | 0 <= k < |u|
        ensures u[k].votes >= last.votes
      {
        assert u[k] in multiset(u);
        if u[k] != x {
          assert u[k] in multiset(init);
          var m :| 0 <= m < |init| && init[m] == u[k];
          assert t[m] == init[m];
        }
      }
    }
  }

  /** After the sort the list is in non-increasing order of votes. */
  lemma {:induction false} SortByVotesSorted(s: seq<Painting>)
    ensures SortedByVotes(SortByVotes(s))
    decreases |s|
  {
    if s != [] {
      SortByVotesSorted(s[..|s| - 1]);
      InsertKeepsSorted(SortByVotes(s[..|s| - 1]), s[|s| - 1]);
    }
  }

  /** The records with exactly `v` votes, in list order. */
  function WithVotes(s: seq<Painting>, v: int): (r: seq<Painting>)
    decreases |s|
  {
    if s == [] then []
    else WithVotes(s[..|s| - 1], v) + (if s[|s| - 1].votes == v then [s[|s| - 1]] else [])
  }

  lemma {:induction false} InsertByVotesStable(t: seq<Painting>, x: Painting, v: int)
    ensures WithVotes(InsertByVotes(t, x), v) == WithVotes(t, v) + (if x.votes == v then [x] else [])
    decreases |t|
  {
    if t == [] || t[|t| - 1].votes >= x.votes {
      assert (t + [x])[..|t|] == t;
    } else {
      var init, last := t[..|t| - 1], t[|t| - 1];
      InsertByVotesStable(init, x, v);
      var u := InsertByVotes(init, x);
      assert (u + [last])[..|u|] == u;
    }
  }

  /** The sort is stable: the records that tie on votes keep their relative order. */
  lemma {:induction false} SortByVotesStable(s: seq<Painting>, v: int)
    ensures WithVotes(SortByVotes(s), v) == WithVotes(s, v)
    decreases |s|
  {
    if s != [] {
      SortByVotesStable(s[..|s| - 1], v);
      InsertByVotesStable(SortByVotes(s[..|s| - 1]), s[|s| - 1], v);
    }
  }

  lemma {:induction false} InsertKeepsIds(t: seq<Painting>, x: Painting)
    ensures multiset(Ids(InsertByVotes(t, x))) == multiset(Ids(t)) + multiset{x.id}
    decreases |t|
  {
    if t == [] || t[|t| - 1].votes >= x.votes {
      assert Ids(t + [x]) == Ids(t) + [x.id];
    } else {
      var init, last := t[..|t| - 1], t[|t| - 1];
      InsertKeepsIds(init, x);
      assert Ids(InsertByVotes(init, x) + [last]) == Ids(InsertByVotes(init, x)) + [last.id];
      assert Ids(t) == Ids(init) + [last.id];
    }
  }

  lemma {:induction false} SortKeepsIds(s: seq<Painting>)
    ensures multiset(Ids(SortByVotes(s))) == multiset(Ids(s))
    decreases |s|
  {
    if s != [] {
      var init := s[..|s| - 1];
      SortKeepsIds(init);
      InsertKeepsIds(SortByVotes(init), s[|s| - 1]);
      assert Ids(s) == Ids(init) + [s[|s| - 1].id];
    }
  }

  /** Where the insertion lands: right after the last record with at least as many votes, all
      records after that point having fewer. */
  lemma {:induction false} InsertLandsAt(prefix: seq<Painting>, j: nat, key: Painting)
    requires j <= |prefix| && (j == 0 || prefix[j - 1].votes >= key.votes)
    requires forall k :: j <= k < |prefix| ==> prefix[k].votes < key.votes
    ensures InsertByVotes(prefix, key) == prefix[..j] + [key] + prefix[j..]
    decreases |prefix|
  {
    if j == |prefix| {
      assert prefix[..j] == prefix && prefix[j..] == [];
    } else {
      var n := |prefix| - 1;
      var init := prefix[..n];
      InsertLandsAt(init, j, key);
      assert init[..j] == prefix[..j];
      assert prefix[j..] == init[j..] + [prefix[n]];
    }
  }

  /** One pass of the insertion sort: `a[i]` is shifted left past the records before it that
      have fewer votes, into the already sorted prefix `a[..i]`. */
  method InsertInPlace(a: array<Painting>, i: nat)
    requires i < a.Length
    modifies a
    ensures a[..i + 1] == InsertByVotes(old(a[..i]), old(a[i]))
    ensures forall k :: i < k < a.Length ==> a[k] == old(a[k])
  {
    var key := a[i];
    ghost var prefix := a[..i];
    var j := i;
    while j > 0 && a[j - 1].votes < key.votes
      invariant 0 <= j <= i
      invariant forall k :: 0 <= k < j ==> a[k] == prefix[k]
      invariant forall k :: j < k <= i ==> a[k] == prefix[k - 1]
      invariant forall k :: i < k < a.Length ==> a[k] == old(a[k])
      invariant forall k :: j <= k < i ==> prefix[k].votes < key.votes
    {
      a[j] := a[j - 1];
      j := j - 1;
    }
    a[j] := key;
    InsertLandsAt(prefix, j, key);
    ShiftedIn(a[..i + 1], prefix, j, key);
  }

  /** A sequence that agrees with `prefix` before `j`, holds `key` at `j` and agrees with `prefix`
      shifted one place right after `j` is `prefix` with `key` inserted at `j`. */
  lemma ShiftedIn(s: seq<Painting>, prefix: seq<Painting>, j: nat, key: Painting)
    requires |s| == |prefix| + 1 && j <= |prefix|
    requires forall k :: 0 <= k < j ==> s[k] == prefix[k]
    requires s[j] == key
    requires forall k :: j < k < |s| ==> s[k] == prefix[k - 1]
    ensures s == prefix[..j] + [key] + prefix[j..]
  {
  }

  /** The in-place sort of the vote handlers: an insertion sort, which is exactly `SortByVotes`. */
  method SortByVotesInPlace(a: array<Painting>)
    modifies a
    ensures a[..] == SortByVotes(old(a[..]))
  {
    ghost var input := a[..];
    var i := 0;
    while i < a.Length
      invariant 0 <= i <= a.Length
      invariant a[..i] == SortByVotes(input[..i])
      invariant forall k :: i <= k < a.Length ==> a[k] == input[k]
    {
      InsertInPlace(a, i);
      assert input[..i + 1][..i] == input[..i];
      i := i + 1;
    }
    assert input[..a.Length] == input;
  }

  /** `handleVote`'s list: increment the voted records, then sort, most votes first. The result
      is sorted, a permutation of the incremented list, and keeps every id of the old list. */
  method Vote(ps: seq<Painting>, id: string) returns (updated: seq<Painting>)
    ensures updated == SortByVotes(IncrementVotes(ps, id))
    ensures SortedByVotes(updated)
    ensures multiset(updated) == multiset(IncrementVotes(ps, id))
    ensures multiset(Ids(updated)) == multiset(Ids(ps))
    ensures |updated| == |ps|
  {
    var incremented := IncrementVotes(ps, id);
    var a := new Painting[|incremented|](i requires 0 <= i < |incremented| => incremented[i]);
    assert a[..] == incremented;
    SortByVotesInPlace(a);
    updated := a[..];
    SortByVotesSorted(incremented);
    SortByVotesPermutes(incremented);
    SortKeepsIds(incremented);
    assert Ids(incremented) == Ids(ps);
    assert |multiset(updated)| == |multiset(incremented)|;
  }
}
