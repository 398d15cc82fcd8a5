/** What the thread modules share: thread numbers, lists of waiters, and counting threads. */
module WaitLists {
  type Tid = nat

  ghost predicate NoRepeats(s: seq<Tid>) {
    forall i, j :: 0 <= i < j < |s| ==> s[i] != s[j]
  }

  /** `s` with `t` added at some place: where depends on priorities. */
  function Inserted(s: seq<Tid>, t: Tid, place: nat): seq<Tid>
    requires place <= |s|
  {
    s[..place] + [t] + s[place..]
  }

  lemma InsertMembers(s: seq<Tid>, t: Tid, place: nat)
    requires place <= |s| && NoRepeats(s) && t !in s
    ensures var r := Inserted(s, t, place); NoRepeats(r) && forall u :: u in r <==> u in s || u == t
  {
    var r := Inserted(s, t, place);
    assert forall i :: 0 <= i < |r| ==> r[i] == if i < place then s[i] else if i == place then t else s[i - 1];
    assert r[place] == t;
    forall u | u in s
      ensures u in r
    {
      var i :| 0 <= i < |s| && s[i] == u;
      assert r[if i < place then i else i + 1] == u;
    }
  }

  lemma DropFirst(s: seq<Tid>)
    requires s != [] && NoRepeats(s)
    ensures NoRepeats(s[1..]) && forall u :: u in s[1..] <==> u in s && u != s[0]
  {
    forall u | u in s && u != s[0]
      ensures u in s[1..]
    {
      var i :| 0 <= i < |s| && s[i] == u;
      assert s[1..][i - 1] == u;
    }
  }

  function One(b: bool): nat {
    if b then 1 else 0
  }

  lemma SizeAfter(a: set<Tid>, b: set<Tid>, t: Tid)
    requires forall u :: u != t ==> (u in a <==> u in b)
    ensures |b| == |a| - One(t in a) + One(t in b)
  {
    assert b - {t} == a - {t};
    assert t in a ==> a == (a - {t}) + {t};
    assert t in b ==> b == (b - {t}) + {t};
    assert t !in a ==> a == a - {t};
    assert t !in b ==> b == b - {t};
  }
}
