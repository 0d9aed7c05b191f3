/** The list of known constants kept by propagation (HirConstantEnvironment). */
module HirConstants {
  import opened Pigeonhole
  import opened Hir
  import opened HirPropagate

  type Items = seq<(string, Constant)>

  ghost predicate Records(items: Items, facts: Facts) {
    && (forall i, j :: 0 <= i < j < |items| ==> items[i].0 != items[j].0)
    && (forall i :: 0 <= i < |items| ==> items[i].0 in facts && facts[items[i].0] == items[i].1)
    && |items| == |facts|
  }

  ghost function Names(items: Items): set<string> {
    set i | 0 <= i < |items| :: items[i].0
  }

  lemma {:induction false} NamesSize(items: Items)
    requires forall i, j :: 0 <= i < j < |items| ==> items[i].0 != items[j].0
    ensures |Names(items)| == |items|
  {
    if items != [] {
      var last := |items| - 1;
      NamesSize(items[..last]);
      assert Names(items) == Names(items[..last]) + {items[last].0};
      assert items[last].0 !in Names(items[..last]);
    }
  }

  /** Every fact is recorded in some item. */
  lemma Covered(items: Items, facts: Facts)
    requires Records(items, facts)
    ensures Names(items) == facts.Keys
  {
    NamesSize(items);
    SubsetSize(Names(items), facts.Keys);
  }

  /** The next item of a list names something new. */
  lemma NewName(items: Items, facts: Facts, all: Items, i: nat)
    requires Records(items, facts) && i < |all| && items == all[..i] && forall a, b :: 0 <= a < b < |all| ==> all[a].0 != all[b].0
    ensures all[i].0 !in facts
  {
    Covered(items, facts);
  }

  lemma {:induction false} SameFacts(items: Items, a: Facts, b: Facts)
    requires Records(items, a) && Records(items, b)
    ensures a == b
  {
    Covered(items, a);
    Covered(items, b);
    forall x | x in a ensures a[x] == b[x] {
      var i :| 0 <= i < |items| && items[i].0 == x;
    }
  }

  class ConstantEnv {
    var items: Items
    ghost var facts: Facts

    ghost predicate Valid()
      reads this
    {
      Records(items, facts)
    }

    constructor ()
      ensures Valid() && facts == map[]
    {
      items, facts := [], map[];
    }

    /** A copy of the incoming facts for one branch. */
    constructor CopyOf(source: ConstantEnv)
      requires source.Valid()
      ensures Valid() && facts == source.facts
    {
      items, facts := [], map[];
      new;
      for i := 0 to |source.items|
        invariant Valid() && source.Valid() && items == source.items[..i]
      {
        NewName(items, facts, source.items, i);
        Remember(source.items[i].0, source.items[i].1);
      }
      SameFacts(items, facts, source.facts);
    }

    method Clear()
      modifies this
      ensures Valid() && facts == map[]
    {
      items, facts := [], map[];
    }

    method Find(name: string) returns (i: int)
      requires Valid()
      ensures i == NO_NODE <==> name !in facts
      ensures name in facts ==> 0 <= i < |items| && items[i].0 == name && items[i].1 == facts[name]
    {
      i := 0;
      while i < |items|
        invariant 0 <= i <= |items| && forall j :: 0 <= j < i ==> items[j].0 != name
      {
        if items[i].0 == name { return; }
        i := i + 1;
      }
      i := NO_NODE;
      Covered(items, facts);
    }

    /** Forgets a variable; its slot is reused by the last item. */
    method Invalidate(name: string)
      requires Valid()
      modifies this
      ensures Valid() && facts == old(facts) - {name}
    {
      var index := Find(name);
      if index == NO_NODE {
        assert facts - {name} == facts;
      } else {
        var last := |items| - 1;
        items := items[index := items[last]][..last];
        assert (facts - {name}).Keys == facts.Keys - {name};
        facts := facts - {name};
      }
    }

    method Remember(name: string, constant: Constant)
      requires Valid()
      modifies this
      ensures Valid() && facts == old(facts)[name := constant]
      ensures name !in old(facts) ==> items == old(items) + [(name, constant)]
    {
      var index := Find(name);
      if index == NO_NODE {
        items := items + [(name, constant)];
        assert facts[name := constant].Keys == facts.Keys + {name};
      } else {
        items := items[index := (name, constant)];
        assert facts[name := constant].Keys == facts.Keys;
      }
      facts := facts[name := constant];
    }
  }
}
