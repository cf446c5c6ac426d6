/**
 * The owner's deck: 52 two-character cards (13 ranks by 4 suits) dealt without
 * replacement. `wholeDeck` holds the cards still undealt and `dealt` those handed
 * out, both updated in place by `Deal`.
 */
module Cards {
  import opened Wrappers
  import opened Failures
  import opened Text

  const Ranks: string := "23456789TJQKA"
  const Suits: string := "CDHS"

  /** No element occurs twice. */
  ghost predicate Distinct<T>(s: seq<T>) {
    forall i, j :: 0 <= i < j < |s| ==> s[i] != s[j]
  }

  /** `[a + b for a, b in itertools.product(ranks, suits)]`: rank-major order. */
  function FullDeck(): (deck: seq<string>)
    ensures |deck| == |Ranks| * |Suits| == 52
  {
    seq(52, k requires 0 <= k < 52 => [Ranks[k / 4], Suits[k % 4]])
  }

  /** Every card of the fresh deck is a rank followed by a suit, free of whitespace. */
  lemma FullDeckCards()
    ensures forall c :: c in FullDeck() ==> |c| == 2 && c[0] in Ranks && c[1] in Suits && IsToken(c)
  {
    forall c | c in FullDeck()
      ensures |c| == 2 && c[0] in Ranks && c[1] in Suits && IsToken(c)
    {
      var k :| 0 <= k < 52 && FullDeck()[k] == c;
      assert c[0] == Ranks[k / 4] && c[1] == Suits[k % 4];
    }
  }

  /** ...every rank and suit combination occurs in it... */
  lemma FullDeckComplete(r: nat, s: nat)
    requires r < |Ranks| && s < |Suits|
    ensures [Ranks[r], Suits[s]] in FullDeck()
  {
    var k := 4 * r + s;
    assert k / 4 == r && k % 4 == s;
    assert FullDeck()[k] == [Ranks[r], Suits[s]];
  }

  /** ...and no card occurs twice. */
  lemma FullDeckDistinct()
    ensures Distinct(FullDeck())
  {
    var d := FullDeck();
    assert forall a, b :: 0 <= a < b < |Ranks| ==> Ranks[a] != Ranks[b];
    assert forall a, b :: 0 <= a < b < |Suits| ==> Suits[a] != Suits[b];
    forall i, j | 0 <= i < j < 52 ensures d[i] != d[j] {
      assert d[i][0] == Ranks[i / 4] && d[i][1] == Suits[i % 4];
      assert d[j][0] == Ranks[j / 4] && d[j][1] == Suits[j % 4];
      if i / 4 == j / 4 {
        assert i % 4 != j % 4;
      }
    }
  }

  lemma {:induction false} CountsOfDistinct<T>(s: seq<T>)
    requires Distinct(s)
    ensures forall x :: multiset(s)[x] <= 1
    decreases |s|
  {
    if s != [] {
      var rest := s[1..];
      assert s == [s[0]] + rest;
      assert Distinct(rest);
      CountsOfDistinct(rest);
      assert s[0] !in rest;
    }
  }

  lemma DistinctOfCounts<T>(s: seq<T>)
    requires forall x :: multiset(s)[x] <= 1
    ensures Distinct(s)
  {
    forall i, j | 0 <= i < j < |s| ensures s[i] != s[j] {
      assert s == s[..j] + s[j..];
      assert s[i] in s[..j];
      assert s[j] in s[j..];
      assert multiset(s)[s[j]] == multiset(s[..j])[s[j]] + multiset(s[j..])[s[j]];
    }
  }

  /** A sequence without repeats whose elements all occur in `chosen` is no longer
      than `chosen`. */
  lemma CoveredIsNoLonger<T>(w: seq<T>, chosen: seq<T>)
    requires forall x :: multiset(w)[x] <= 1
    ensures (forall x :: x in w ==> x in chosen) ==> |w| <= |chosen|
  {
    if forall x :: x in w ==> x in chosen {
      assert multiset(w) <= multiset(chosen) by {
        forall x ensures multiset(w)[x] <= multiset(chosen)[x] {
          if x in w {
            assert x in chosen;
          }
        }
      }
      assert multiset(chosen) == multiset(w) + (multiset(chosen) - multiset(w));
    }
  }

  /** `random.sample(population, n)` for a population without repeats: any `n`
      distinct members of it. The choice is left open (`:|`), because the model makes
      no claim about the distribution. */
  method Sample(population: seq<string>, n: nat) returns (chosen: seq<string>)
    requires forall x :: multiset(population)[x] <= 1
    requires n <= |population|
    ensures |chosen| == n
    ensures Distinct(chosen)
    ensures multiset(chosen) <= multiset(population)
  {
    chosen := [];
    while |chosen| < n
      invariant |chosen| <= n
      invariant Distinct(chosen)
      invariant multiset(chosen) <= multiset(population)
    {
      CoveredIsNoLonger(population, chosen);
      var x :| x in population && x !in chosen;
      assert multiset(chosen)[x] == 0;
      chosen := chosen + [x];
    }
  }

  /** `list.index(x)`: the position of the first occurrence of `x`. */
  function IndexOf<T(==)>(s: seq<T>, x: T): (i: nat)
    requires x in s
    ensures i < |s| && s[i] == x && x !in s[..i]
  {
    if s[0] == x then 0
    else
      var i := 1 + IndexOf(s[1..], x);
      assert s[..i] == [s[0]] + s[1..][..i - 1];
      i
  }

  /** `list.remove(x)`: drops the first occurrence of `x` and keeps the order of the rest. */
  function RemoveFirst<T(==)>(s: seq<T>, x: T): (r: seq<T>)
    requires x in s
    ensures |r| == |s| - 1
    ensures multiset(r) == multiset(s) - multiset{x}
  {
    var i := IndexOf(s, x);
    assert s == s[..i] + [x] + s[i + 1..];
    s[..i] + s[i + 1..]
  }

  /** One step of `[whole_deck.remove(dead) for dead in c]`: the next card `x` of `c` is
      still undealt, and removing it extends the removed prefix `done` by one. */
  lemma RemoveStep(w: seq<string>, before: seq<string>, done: seq<string>, x: string)
    requires x !in done && x in before
    requires multiset(w) == multiset(before) - multiset(done)
    ensures x in w
    ensures multiset(RemoveFirst(w, x)) == multiset(before) - multiset(done + [x])
  {
    assert multiset(done)[x] == 0;
    assert multiset(w)[x] == multiset(before)[x];
    var lhs := multiset(w) - multiset{x};
    var rhs := multiset(before) - multiset(done + [x]);
    assert multiset(done + [x]) == multiset(done) + multiset{x};
    forall y ensures lhs[y] == rhs[y] {
    }
    assert lhs == rhs;
  }

  /** Moving a sub-multiset `c` of `w` onto `d` keeps the total. */
  lemma Conserved(w: seq<string>, d: seq<string>, c: seq<string>)
    requires multiset(c) <= multiset(w)
    ensures (multiset(w) - multiset(c)) + multiset(d + c) == multiset(w) + multiset(d)
  {
    assert multiset(d + c) == multiset(d) + multiset(c);
  }

  lemma NotEarlier<T>(c: seq<T>, i: nat)
    requires Distinct(c) && i < |c|
    ensures c[i] !in c[..i]
  {
    forall k | 0 <= k < i ensures c[..i][k] != c[i] {
      assert c[..i][k] == c[k];
    }
  }

  /** The loop step of `RemoveEach`: the `i`-th card is still in `r`, and removing it
      keeps the invariant. */
  lemma RemoveEachStep(r: seq<string>, w: seq<string>, c: seq<string>, i: nat)
    requires Distinct(c) && multiset(c) <= multiset(w) && i < |c|
    requires multiset(r) == multiset(w) - multiset(c[..i])
    ensures c[i] in r
    ensures multiset(RemoveFirst(r, c[i])) == multiset(w) - multiset(c[..i + 1])
  {
    var x := c[i];
    assert c[..i + 1] == c[..i] + [x];
    assert x in multiset(c);
    assert x in multiset(w);
    NotEarlier(c, i);
    RemoveStep(r, w, c[..i], x);
  }

  /** `[w.remove(dead) for dead in c]`, the list `w` as it is left afterwards. */
  method RemoveEach(w: seq<string>, c: seq<string>) returns (r: seq<string>)
    requires Distinct(c) && multiset(c) <= multiset(w)
    ensures multiset(r) == multiset(w) - multiset(c)
    ensures |r| == |w| - |c|
  {
    r := w;
    var i := 0;
    while i < |c|
      invariant 0 <= i <= |c|
      invariant multiset(r) == multiset(w) - multiset(c[..i])
      invariant |r| == |w| - i
    {
      RemoveEachStep(r, w, c, i);
      r := RemoveFirst(r, c[i]);
      i := i + 1;
    }
    assert c[..|c|] == c;
  }

  class Deck {
    var wholeDeck: seq<string>
    var dealt: seq<string>

    /** Conservation: the undealt and the dealt cards together are the 52 cards of a
        fresh deck, each exactly once. */
    ghost predicate Valid()
      reads this
    {
      multiset(wholeDeck) + multiset(dealt) == multiset(FullDeck())
    }

    constructor ()
      ensures Valid()
      ensures wholeDeck == FullDeck() && dealt == []
    {
      wholeDeck := FullDeck();
      dealt := [];
    }

    /** Under `Valid()`, no card is both undealt and dealt, and neither pile repeats one. */
    lemma Disjoint()
      requires Valid()
      ensures Distinct(wholeDeck + dealt)
      ensures Distinct(wholeDeck) && Distinct(dealt)
      ensures forall x :: x in wholeDeck ==> x !in dealt
      ensures |wholeDeck| + |dealt| == 52
    {
      FullDeckDistinct();
      CountsOfDistinct(FullDeck());
      assert multiset(wholeDeck + dealt) == multiset(FullDeck());
      DistinctOfCounts(wholeDeck + dealt);
      var all := wholeDeck + dealt;
      forall i, j | 0 <= i < j < |wholeDeck| ensures wholeDeck[i] != wholeDeck[j] {
        assert all[i] == wholeDeck[i] && all[j] == wholeDeck[j];
      }
      forall i, j | 0 <= i < j < |dealt| ensures dealt[i] != dealt[j] {
        assert all[|wholeDeck| + i] == dealt[i] && all[|wholeDeck| + j] == dealt[j];
      }
      forall x | x in wholeDeck ensures x !in dealt {
        var i :| 0 <= i < |wholeDeck| && wholeDeck[i] == x;
        forall j | 0 <= j < |dealt| ensures dealt[j] != x {
          assert all[i] == x && all[|wholeDeck| + j] == dealt[j];
        }
      }
      assert |multiset(all)| == |multiset(FullDeck())|;
    }

    /** `deal(n)`: `random.sample(whole_deck, n)` picks `n` distinct undealt cards (any
        such choice), they are appended to `dealt` and removed from `whole_deck`.
        Asking for more cards than remain raises `ValueError` and changes nothing. */
    method Deal(n: nat) returns (r: Result<seq<string>, Error>)
      requires Valid()
      modifies this
      ensures Valid()
      ensures n > |old(wholeDeck)| ==>
                r == Err(ValueError) && wholeDeck == old(wholeDeck) && dealt == old(dealt)
      ensures n <= |old(wholeDeck)| ==> r.Ok?
      ensures r.Ok? ==>
                && |r.value| == n
                && Distinct(r.value)
                && multiset(r.value) <= multiset(old(wholeDeck))
                && dealt == old(dealt) + r.value
                && multiset(wholeDeck) == multiset(old(wholeDeck)) - multiset(r.value)
                && |wholeDeck| == |old(wholeDeck)| - n
    {
      if n > |wholeDeck| {
        return Err(ValueError);
      }
      Disjoint();
      CountsOfDistinct(wholeDeck);
      var chosen := Sample(wholeDeck, n);
      dealt := dealt + chosen;
      ghost var before := wholeDeck;
      wholeDeck := RemoveEach(wholeDeck, chosen);
      Conserved(before, old(dealt), chosen);
      r := Ok(chosen);
    }
  }
}
