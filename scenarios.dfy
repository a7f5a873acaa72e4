/** Worked examples: the ranking of three states by deaths, computed
    end to end. */
module Scenarios {

  import opened Records
  import opened Grouping
  import opened Ranking
  import opened Aggregates

  /** A row of `state` with `killed` deaths and nothing else of note. */
  function DeathsRow(state: string, killed: nat): Record
  {
    Record(state, "Q1", 0, killed, 1, 1, 0, 0, 0, 0, 0, 0, 0, 0, 0)
  }

  lemma ExampleGroups()
    ensures GroupSum([DeathsRow("A", 5), DeathsRow("B", 12), DeathsRow("C", 3)], StateOf, NumKilled)
      == [Group("A", 5), Group("B", 12), Group("C", 3)]
  {
    var a, b, c := DeathsRow("A", 5), DeathsRow("B", 12), DeathsRow("C", 3);
    assert [a][..0] == [];
    assert GroupSum([a], StateOf, NumKilled) == [Group("A", 5)];
    assert [a, b][..1] == [a];
    assert GroupSum([a, b], StateOf, NumKilled) == [Group("A", 5), Group("B", 12)];
    assert [a, b, c][..2] == [a, b];
  }

  lemma InsertAbove()
    ensures Insert(Group("A", 5), [Group("C", 3)]) == [Group("A", 5), Group("C", 3)]
  {
  }

  lemma InsertBelow()
    ensures Insert(Group("A", 5), [Group("B", 12), Group("C", 3)])
      == [Group("B", 12), Group("A", 5), Group("C", 3)]
  {
    var ranked := [Group("B", 12), Group("C", 3)];
    assert ranked[1..] == [Group("C", 3)];
    InsertAbove();
  }

  lemma ExampleRanking()
    ensures SortDescending([Group("A", 5), Group("B", 12), Group("C", 3)])
      == [Group("B", 12), Group("A", 5), Group("C", 3)]
  {
    var a, b, c := Group("A", 5), Group("B", 12), Group("C", 3);
    assert [a, b, c][1..] == [b, c] && [b, c][1..] == [c] && [c][1..] == [];
    assert SortDescending([c]) == [c];
    assert SortDescending([b, c]) == Insert(b, [c]) == [b, c];
    InsertBelow();
  }

  /** States A, B and C with 5, 12 and 3 deaths rank as B, A, C. */
  lemma TopDeathStatesExample()
    ensures TopDeathStates([DeathsRow("A", 5), DeathsRow("B", 12), DeathsRow("C", 3)])
      == [Group("B", 12), Group("A", 5), Group("C", 3)]
  {
    var rows := [DeathsRow("A", 5), DeathsRow("B", 12), DeathsRow("C", 3)];
    var gs := [Group("A", 5), Group("B", 12), Group("C", 3)];
    var ranked := [Group("B", 12), Group("A", 5), Group("C", 3)];
    ExampleGroups();
    ExampleRanking();
    assert TopDeathStates(rows) == Largest(10, gs);
    assert Min(10, |gs|) == 3;
    assert ranked[..3] == ranked;
  }
}
