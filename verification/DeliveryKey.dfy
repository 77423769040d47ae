/** The idempotency key of a wakeup is derived from the whole batch: the sorted child ids, joined by
    commas, and then digested. Here is the text that is digested. */
module DeliveryKey {

  /** The order of strings by code points. */
  predicate Leq(a: string, b: string) {
    a == "" || (b != "" && (a[0] < b[0] || (a[0] == b[0] && Leq(a[1..], b[1..]))))
  }

  lemma {:induction false} LeqTotal(a: string, b: string)
    ensures Leq(a, b) || Leq(b, a)
  {
    if a != "" && b != "" && a[0] == b[0] {
      LeqTotal(a[1..], b[1..]);
    }
  }

  lemma {:induction false} LeqAntisymmetric(a: string, b: string)
    requires Leq(a, b) && Leq(b, a)
    ensures a == b
  {
    if a != "" {
      LeqAntisymmetric(a[1..], b[1..]);
      assert a == [a[0]] + a[1..] && b == [b[0]] + b[1..];
    }
  }

  lemma {:induction false} LeqTransitive(a: string, b: string, c: string)
    requires Leq(a, b) && Leq(b, c)
    ensures Leq(a, c)
  {
    if a != "" && a[0] == b[0] && b[0] == c[0] {
      LeqTransitive(a[1..], b[1..], c[1..]);
    }
  }

  function Insert(id: string, sorted: seq<string>): seq<string> {
    if sorted == [] || Leq(id, sorted[0]) then [id] + sorted else [sorted[0]] + Insert(id, sorted[1..])
  }

  function Sorted(ids: seq<string>): seq<string> {
    if ids == [] then [] else Insert(ids[0], Sorted(ids[1..]))
  }

  /** Each id comes no later than everything behind it. */
  ghost predicate InOrder(ids: seq<string>) {
    ids != [] ==> (forall x :: x in ids ==> Leq(ids[0], x)) && InOrder(ids[1..])
  }

  lemma {:induction false} InsertKeepsAll(id: string, sorted: seq<string>)
    ensures multiset(Insert(id, sorted)) == multiset(sorted) + multiset{id}
  {
    if sorted != [] && !Leq(id, sorted[0]) {
      InsertKeepsAll(id, sorted[1..]);
      assert sorted == [sorted[0]] + sorted[1..];
    }
  }

  lemma InsertMembers(id: string, sorted: seq<string>, x: string)
    requires x in Insert(id, sorted)
    ensures x == id || x in sorted
  {
    InsertKeepsAll(id, sorted);
    assert x in multiset(Insert(id, sorted));
    assert x != id ==> x in multiset(sorted);
  }

  lemma {:induction false} InsertKeepsOrder(id: string, sorted: seq<string>)
    requires InOrder(sorted)
    ensures InOrder(Insert(id, sorted))
  {
    LeqTotal(id, id);
    if sorted == [] {
    } else if Leq(id, sorted[0]) {
      forall x | x in sorted ensures Leq(id, x) {
        LeqTransitive(id, sorted[0], x);
      }
      assert ([id] + sorted)[1..] == sorted;
    } else {
      hide Leq;
      InsertKeepsOrder(id, sorted[1..]);
      LeqTotal(id, sorted[0]);
      LeqTotal(sorted[0], sorted[0]);
      var tail := Insert(id, sorted[1..]);
      assert ([sorted[0]] + tail)[1..] == tail;
      forall x | x in [sorted[0]] + tail ensures Leq(sorted[0], x) {
        if x in tail {
          InsertMembers(id, sorted[1..], x);
        }
      }
    }
  }

  lemma {:induction false} SortedIsSort(ids: seq<string>)
    ensures InOrder(Sorted(ids)) && multiset(Sorted(ids)) == multiset(ids)
  {
    if ids != [] {
      SortedIsSort(ids[1..]);
      InsertKeepsOrder(ids[0], Sorted(ids[1..]));
      InsertKeepsAll(ids[0], Sorted(ids[1..]));
      assert ids == [ids[0]] + ids[1..];
    }
  }

  lemma {:induction false} OneOrder(a: seq<string>, b: seq<string>)
    requires InOrder(a) && InOrder(b) && multiset(a) == multiset(b)
    ensures a == b
  {
    assert |a| == |multiset(a)| == |multiset(b)| == |b|;
    if a != [] {
      assert a[0] in multiset(b);
      assert b[0] in multiset(a);
      LeqAntisymmetric(a[0], b[0]);
      assert a == [a[0]] + a[1..] && b == [b[0]] + b[1..];
      assert multiset(a[1..]) == multiset(a) - multiset{a[0]} == multiset(b[1..]);
      OneOrder(a[1..], b[1..]);
    }
  }

  function Joined(ids: seq<string>): string {
    if ids == [] then "" else if |ids| == 1 then ids[0] else ids[0] + "," + Joined(ids[1..])
  }

  function KeyText(ids: seq<string>): string {
    Joined(Sorted(ids))
  }

  /** What derived child ids are: not empty, and without a comma. */
  predicate Plain(id: string) {
    id != "" && ',' !in id
  }

  function CommaIndex(text: string): nat {
    if text == "" || text[0] == ',' then 0 else 1 + CommaIndex(text[1..])
  }

  lemma {:induction false} CommaIndexIs(text: string, n: nat)
    requires n <= |text| && (forall k :: 0 <= k < n ==> text[k] != ',') && (n < |text| ==> text[n] == ',')
    ensures CommaIndex(text) == n
  {
    if n > 0 {
      CommaIndexIs(text[1..], n - 1);
    }
  }

  /** The first id ends at the first comma, or the text ends with it. */
  lemma FirstComma(ids: seq<string>)
    requires ids != [] && Plain(ids[0])
    ensures var n := |ids[0]|;
            && CommaIndex(Joined(ids)) == n && n <= |Joined(ids)| && Joined(ids)[..n] == ids[0]
            && (|ids| == 1 <==> |Joined(ids)| == n) && (|ids| > 1 ==> Joined(ids)[n + 1..] == Joined(ids[1..]))
  {
    var text, n := Joined(ids), |ids[0]|;
    assert text[..n] == ids[0];
    assert forall k :: 0 <= k < n ==> text[k] == ids[0][k];
    CommaIndexIs(text, n);
  }

  lemma {:induction false} JoinedOnce(a: seq<string>, b: seq<string>)
    requires (forall x :: x in a ==> Plain(x)) && (forall x :: x in b ==> Plain(x)) && Joined(a) == Joined(b)
    ensures a == b
  {
    if a != [] {
      FirstComma(a);
    }
    if b != [] {
      FirstComma(b);
    }
    if |a| > 1 && |b| > 1 {
      JoinedOnce(a[1..], b[1..]);
      assert a == [a[0]] + a[1..] && b == [b[0]] + b[1..];
    }
  }

  /** Two batches have the same key text if and only if they hold the same children, in whatever order. */
  lemma SameKeyExactly(a: seq<string>, b: seq<string>)
    requires (forall x :: x in a ==> Plain(x)) && (forall x :: x in b ==> Plain(x))
    ensures KeyText(a) == KeyText(b) <==> multiset(a) == multiset(b)
  {
    SortedIsSort(a);
    SortedIsSort(b);
    forall x | x in Sorted(a) ensures Plain(x) {
      assert x in multiset(Sorted(a)) && x in multiset(a);
    }
    forall x | x in Sorted(b) ensures Plain(x) {
      assert x in multiset(Sorted(b)) && x in multiset(b);
    }
    if KeyText(a) == KeyText(b) {
      JoinedOnce(Sorted(a), Sorted(b));
    }
    if multiset(a) == multiset(b) {
      OneOrder(Sorted(a), Sorted(b));
    }
  }

  /** With a comma in an id two different batches can share a key text. */
  lemma CommaSpoilsKey()
    ensures KeyText(["a,b"]) == KeyText(["a", "b"])
  {
    assert Leq("a", "b");
    assert Sorted(["b"]) == ["b"] && Sorted(["a", "b"]) == ["a", "b"] by {
      assert ["a", "b"][1..] == ["b"] && ["b"][1..] == [];
    }
    assert Joined(["a", "b"]) == "a" + "," + Joined(["a", "b"][1..]);
    assert ["a,b"][1..] == [];
  }
}
