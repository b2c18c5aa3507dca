/** Building the deck from the verb catalog and shuffling it (app.py, Game.__init__). */
module Deck {
  import opened Cards

  /** One record of the verb catalog: the four forms of a strong verb. */
  datatype VerbRecord = VerbRecord(infinitive: string, prasens3: string, prateritum: string, partizip2: string)

  /** The four cards one verb contributes, in the order the build loop appends them. */
  function Family(v: VerbRecord): seq<Card> {
    [Card(v.infinitive, v.infinitive, 0), Card(v.prasens3, v.infinitive, 1),
     Card(v.prateritum, v.infinitive, 2), Card(v.partizip2, v.infinitive, 3)]
  }

  /** The unshuffled deck: the families of the catalog, concatenated in catalog order. */
  function Catalog(verbs: seq<VerbRecord>): seq<Card> {
    if verbs == [] then [] else Catalog(verbs[..|verbs| - 1]) + Family(verbs[|verbs| - 1])
  }

  /** The number of cards in `s` whose form index is `k`. */
  function CountIndex(s: seq<Card>, k: int): nat {
    if s == [] then 0
    else CountIndex(s[..|s| - 1], k) + (if s[|s| - 1].index == k then 1 else 0)
  }

  /** N verb records give exactly 4N cards. */
  lemma {:induction false} CatalogLength(verbs: seq<VerbRecord>)
    ensures |Catalog(verbs)| == 4 * |verbs|
  {
    if verbs != [] {
      CatalogLength(verbs[..|verbs| - 1]);
    }
  }

  /** Card 4i+k of the unshuffled deck is form k of verb i, with the infinitive as its base verb. */
  lemma {:induction false} CatalogAt(verbs: seq<VerbRecord>, i: nat, k: nat)
    requires i < |verbs| && k < 4
    ensures |Catalog(verbs)| == 4 * |verbs|
    ensures Catalog(verbs)[4 * i + k] == Family(verbs[i])[k]
    ensures Catalog(verbs)[4 * i + k].index == k
    ensures Catalog(verbs)[4 * i + k].verb == verbs[i].infinitive
  {
    CatalogLength(verbs);
    var init := verbs[..|verbs| - 1];
    CatalogLength(init);
    if i < |verbs| - 1 {
      CatalogAt(init, i, k);
      assert verbs[i] == init[i];
    }
  }

  lemma {:induction false} CountIndexAppend(a: seq<Card>, b: seq<Card>, k: int)
    ensures CountIndex(a + b, k) == CountIndex(a, k) + CountIndex(b, k)
  {
    if b != [] {
      assert (a + b)[..|a + b| - 1] == a + b[..|b| - 1];
      CountIndexAppend(a, b[..|b| - 1], k);
    } else {
      assert a + b == a;
    }
  }

  /** Each form index 0..3 occurs exactly once per verb record. */
  lemma {:induction false} CatalogIndexCount(verbs: seq<VerbRecord>, k: int)
    requires 0 <= k < 4
    ensures CountIndex(Catalog(verbs), k) == |verbs|
  {
    if verbs != [] {
      var v := verbs[|verbs| - 1];
      CatalogIndexCount(verbs[..|verbs| - 1], k);
      CountIndexAppend(Catalog(verbs[..|verbs| - 1]), Family(v), k);
      var f := Family(v);
      var f1, f2, f3 := [f[0]], [f[0], f[1]], [f[0], f[1], f[2]];
      assert f1[..0] == [] && f2[..1] == f1 && f3[..2] == f2 && f[..3] == f3;
      assert CountIndex(f1, k) == (if k == 0 then 1 else 0);
      assert CountIndex(f2, k) == (if k <= 1 then 1 else 0);
      assert CountIndex(f3, k) == (if k <= 2 then 1 else 0);
    }
  }

  /** Every card of the unshuffled deck is form `c.index` (one of 0..3) of some catalog record. */
  lemma {:induction false} CatalogMember(verbs: seq<VerbRecord>, c: Card)
    requires c in Catalog(verbs)
    ensures 0 <= c.index < 4
    ensures exists i :: 0 <= i < |verbs| && c == Family(verbs[i])[c.index]
  {
    var init := verbs[..|verbs| - 1];
    if c in Catalog(init) {
      CatalogMember(init, c);
      var i :| 0 <= i < |init| && c == Family(init[i])[c.index];
      assert verbs[i] == init[i];
    } else {
      var last := |verbs| - 1;
      assert c in Family(verbs[last]);
      assert c == Family(verbs[last])[c.index];
    }
  }

  /** Taking out the card at position j lowers the count of its form index by one. */
  lemma CountIndexRemoveAt(t: seq<Card>, j: nat, k: int)
    requires j < |t|
    ensures CountIndex(t, k) == CountIndex(t[..j] + t[j + 1..], k) + (if t[j].index == k then 1 else 0)
  {
    assert t == t[..j] + ([t[j]] + t[j + 1..]);
    CountIndexAppend(t[..j], [t[j]] + t[j + 1..], k);
    CountIndexAppend([t[j]], t[j + 1..], k);
    CountIndexAppend(t[..j], t[j + 1..], k);
    assert [t[j]][..0] == [];
  }

  lemma MultisetRemoveAt(t: seq<Card>, j: nat)
    requires j < |t|
    ensures multiset(t[..j] + t[j + 1..]) == multiset(t) - multiset{t[j]}
  {
    assert t == t[..j] + [t[j]] + t[j + 1..];
  }

  /** The count of cards per form index does not depend on the order of the cards. */
  lemma {:induction false} CountIndexPermutation(s: seq<Card>, t: seq<Card>, k: int)
    requires multiset(s) == multiset(t)
    ensures CountIndex(s, k) == CountIndex(t, k)
  {
    if s == [] {
      assert |t| == |multiset(t)| == 0;
    } else {
      var n := |s| - 1;
      var x := s[n];
      assert x in multiset(t);
      var j :| 0 <= j < |t| && t[j] == x;
      MultisetRemoveAt(s, n);
      MultisetRemoveAt(t, j);
      assert s[..n] + s[n + 1..] == s[..n];
      CountIndexPermutation(s[..n], t[..j] + t[j + 1..], k);
      CountIndexRemoveAt(t, j, k);
      CountIndexLast(s, k);
    }
  }

  /** The count of a non-empty sequence is the count of all but its last card plus that card's share. */
  lemma CountIndexLast(s: seq<Card>, k: int)
    requires s != []
    ensures CountIndex(s, k) == CountIndex(s[..|s| - 1], k) + (if s[|s| - 1].index == k then 1 else 0)
  {
  }

  /** The build loop: for each verb record, extend the deck by its four cards. */
  method BuildDeck(verbs: seq<VerbRecord>) returns (deck: seq<Card>)
    ensures deck == Catalog(verbs)
  {
    deck := [];
    for i := 0 to |verbs|
      invariant deck == Catalog(verbs[..i])
    {
      assert verbs[..i + 1][..i] == verbs[..i];
      deck := deck + Family(verbs[i]);
    }
    assert verbs[..|verbs|] == verbs;
  }

  /** `random.shuffle` as CPython runs it (Fisher-Yates): for i from the last position
      down to 1, swap position i with a position j drawn from 0..i. The random draws are
      a parameter; draw i is reduced into 0..i. */
  method Shuffle(s: seq<Card>, draws: seq<nat>) returns (r: seq<Card>)
    requires |draws| == |s|
    ensures |r| == |s|
    ensures multiset(r) == multiset(s)
  {
    r := s;
    var i := |s| - 1;
    while i > 0
      invariant i < |s|
      invariant |r| == |s|
      invariant multiset(r) == multiset(s)
    {
      var j := draws[i] % (i + 1);
      r := r[i := r[j]][j := r[i]];
      i := i - 1;
    }
  }

  /** The deck of a new session is the catalog after the build loop and the shuffle, that
      is some permutation of the catalog's cards. Any such deck holds 4N cards, N of each
      form index, each card one of the four forms of a catalog verb with the infinitive as
      its base verb. */
  lemma {:induction false} ShuffledCatalog(verbs: seq<VerbRecord>, deck: seq<Card>)
    requires multiset(deck) == multiset(Catalog(verbs))
    ensures |deck| == 4 * |verbs|
    ensures forall k :: 0 <= k < 4 ==> CountIndex(deck, k) == |verbs|
    ensures forall c :: c in deck ==>
              0 <= c.index < 4 && exists i :: 0 <= i < |verbs| && c == Family(verbs[i])[c.index]
  {
    CatalogLength(verbs);
    assert |deck| == |multiset(deck)| == |multiset(Catalog(verbs))| == |Catalog(verbs)|;
    forall k | 0 <= k < 4
      ensures CountIndex(deck, k) == |verbs|
    {
      CatalogIndexCount(verbs, k);
      CountIndexPermutation(deck, Catalog(verbs), k);
    }
    forall c | c in deck
      ensures 0 <= c.index < 4 && exists i :: 0 <= i < |verbs| && c == Family(verbs[i])[c.index]
    {
      assert c in multiset(Catalog(verbs));
      CatalogMember(verbs, c);
    }
  }
}
