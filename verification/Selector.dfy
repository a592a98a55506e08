/** Ordered provider selection (internal/provider/selector.go). */
module Selectors {

  /** The enabled names, in priority order. */
  function Enabled(ordered: seq<string>, disabled: set<string>): (names: seq<string>)
    ensures |names| <= |ordered|
  {
    if ordered == [] then []
    else
      var init := Enabled(ordered[..|ordered|-1], disabled);
      var last := ordered[|ordered|-1];
      if last in disabled then init else init + [last]
  }

  predicate Distinct(names: seq<string>) {
    forall i, j | 0 <= i < j < |names| :: names[i] != names[j]
  }

  lemma {:induction false} EnabledMembers(ordered: seq<string>, disabled: set<string>)
    ensures forall n :: n in Enabled(ordered, disabled) <==> n in ordered && n !in disabled
  {
    if ordered != [] {
      EnabledMembers(ordered[..|ordered|-1], disabled);
      assert ordered == ordered[..|ordered|-1] + [ordered[|ordered|-1]];
    }
  }

  lemma {:induction false} EnabledDistinct(ordered: seq<string>, disabled: set<string>)
    requires Distinct(ordered)
    ensures Distinct(Enabled(ordered, disabled))
  {
    if ordered != [] {
      var init := ordered[..|ordered|-1];
      assert Distinct(init);
      EnabledDistinct(init, disabled);
      EnabledMembers(init, disabled);
      assert ordered[|ordered|-1] !in init;
    }
  }

  /**
   The enabled list keeps the priority order: of two distinct enabled providers, the
   one listed first stays first.
   */
  lemma {:induction false} EnabledKeepsOrder(ordered: seq<string>, disabled: set<string>, i: nat, j: nat)
      returns (a: nat, b: nat)
    requires i < j < |ordered| && ordered[i] !in disabled && ordered[j] !in disabled
    ensures a < b < |Enabled(ordered, disabled)|
    ensures Enabled(ordered, disabled)[a] == ordered[i] && Enabled(ordered, disabled)[b] == ordered[j]
  {
    var n := |ordered|;
    var init := ordered[..n-1];
    if j < n - 1 {
      a, b := EnabledKeepsOrder(init, disabled, i, j);
    } else {
      EnabledMembers(init, disabled);
      assert init[i] == ordered[i] && ordered[i] in init;
      a :| 0 <= a < |Enabled(init, disabled)| && Enabled(init, disabled)[a] == ordered[i];
      b := |Enabled(init, disabled)|;
    }
  }

  class Selector {
    const ordered: seq<string>
    var disabled: set<string>

    constructor (ordered: seq<string>, disabled: set<string>)
      ensures this.ordered == ordered && this.disabled == disabled
    {
      this.ordered := ordered;
      this.disabled := disabled;
    }

    method Eligible() returns (result: seq<string>)
      ensures result == Enabled(ordered, disabled)
    {
      result := [];
      for i := 0 to |ordered|
        invariant result == Enabled(ordered[..i], disabled)
      {
        assert ordered[..i+1][..i] == ordered[..i];
        if ordered[i] !in disabled {
          result := result + [ordered[i]];
        }
      }
      assert ordered[..|ordered|] == ordered;
    }

    method Disable(name: string)
      modifies this
      ensures disabled == old(disabled) + {name}
    {
      disabled := disabled + {name};
    }

    method Enable(name: string)
      modifies this
      ensures disabled == old(disabled) - {name}
    {
      disabled := disabled - {name};
    }
  }
}
