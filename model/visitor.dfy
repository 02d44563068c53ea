/** The calls a schema makes on a visitor while it walks its assets, in
    the order it makes them. Column and index visits are not listed: the
    two visitors of this model ignore them. */
module Visitor {
  import opened Objects
  import opened Sequence

  datatype Event =
    | SchemaEvent
    | NamespaceEvent(namespace: string)
    | TableEvent(table: Table)
    | ForeignKeyEvent(localTable: Table, fk: ForeignKey)
    | SequenceEvent(sequence: Sequence)

  /** What a list of visits contributes to one list of queries, when each
      visit contributes f of itself. */
  function Gather(es: seq<Event>, f: Event -> seq<string>): seq<string> {
    if |es| == 0 then [] else Gather(es[..|es| - 1], f) + f(es[|es| - 1])
  }

  lemma {:induction false} GatherAppend(a: seq<Event>, b: seq<Event>, f: Event -> seq<string>)
    ensures Gather(a + b, f) == Gather(a, f) + Gather(b, f)
    decreases |b|
  {
    if |b| == 0 {
      assert a + b == a;
    } else {
      assert (a + b)[..|a + b| - 1] == a + b[..|b| - 1];
      GatherAppend(a, b[..|b| - 1], f);
    }
  }

  /** One more visit adds what it contributes. */
  lemma GatherStep(es: seq<Event>, i: nat, f: Event -> seq<string>)
    requires i < |es|
    ensures Gather(es[..i + 1], f) == Gather(es[..i], f) + f(es[i])
  {
    assert es[..i + 1][..i] == es[..i];
  }

  /** A list that holds what the first i events gave holds, once the i-th
      event's part is appended, what the first i + 1 events give. */
  lemma GatherExtends(q0: seq<string>, q: seq<string>, es: seq<Event>, i: nat, f: Event -> seq<string>)
    requires i < |es| && q == q0 + Gather(es[..i], f)
    ensures q + f(es[i]) == q0 + Gather(es[..i + 1], f)
  {
    GatherStep(es, i, f);
  }

  lemma {:induction false} GatherNothing(es: seq<Event>, f: Event -> seq<string>)
    requires forall i :: 0 <= i < |es| ==> f(es[i]) == []
    ensures Gather(es, f) == []
    decreases |es|
  {
    if |es| > 0 {
      GatherNothing(es[..|es| - 1], f);
    }
  }
}
