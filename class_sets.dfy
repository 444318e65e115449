/**
 * The class labels that select which mirror modules are shown: the three
 * per-state class lists derived in `start`, and `get_class_set`, the
 * duplicate-free union of several label lists.
 */
module ClassSets {

  /** The six configurable class labels. */
  datatype Labels = Labels(
    noFaceClass: string,
    unknownClass: string,
    knownClass: string,
    defaultClass: string,
    everyoneClass: string,
    alwaysClass: string)

  /** The labels of the module's default configuration. */
  const DEFAULT_LABELS: Labels := Labels("noface", "unknown", "known", "default", "everyone", "always")

  /** `config.classes_noface`, `config.classes_unknown` and `config.classes_known`. */
  datatype StateClasses = StateClasses(noface: seq<string>, unknown: seq<string>, known: seq<string>)

  /** The class lists that bring the mirror into the no-face, unknown-face and known-face states. */
  function DeriveClasses(c: Labels): (r: StateClasses)
    // every state shows the "always" modules
    ensures c.alwaysClass in r.noface && c.alwaysClass in r.unknown && c.alwaysClass in r.known
    // every state with a face shows the "everyone" modules
    ensures c.everyoneClass in r.unknown && c.everyoneClass in r.known
    // the states without a recognised face show the "default" modules
    ensures c.defaultClass in r.noface && c.defaultClass in r.unknown
    // each state shows its own class
    ensures c.noFaceClass in r.noface && c.unknownClass in r.unknown && c.knownClass in r.known
    // and nothing else
    ensures forall x :: x in r.noface <==> x == c.noFaceClass || x == c.defaultClass || x == c.alwaysClass
    ensures forall x :: x in r.unknown <==>
      x == c.unknownClass || x == c.defaultClass || x == c.everyoneClass || x == c.alwaysClass
    ensures forall x :: x in r.known <==> x == c.knownClass || x == c.everyoneClass || x == c.alwaysClass
  {
    StateClasses(
      [c.noFaceClass, c.defaultClass, c.alwaysClass],
      [c.unknownClass, c.defaultClass, c.everyoneClass, c.alwaysClass],
      [c.knownClass, c.everyoneClass, c.alwaysClass])
  }

  /** With the default labels a recognised user does not get the "default" modules, and each
      state's own class belongs to that state alone. */
  lemma DefaultStatesSeparate()
    ensures var r := DeriveClasses(DEFAULT_LABELS);
      && "default" !in r.known
      && "noface" !in r.unknown && "noface" !in r.known
      && "unknown" !in r.noface && "unknown" !in r.known
      && "known" !in r.noface && "known" !in r.unknown
  {
  }

  /** For any labels, a recognised user gets the "default" modules exactly when the default
      class coincides with the known, everyone or always class. */
  lemma KnownLacksDefault(c: Labels)
    ensures c.defaultClass in DeriveClasses(c).known
        <==> c.defaultClass == c.knownClass || c.defaultClass == c.everyoneClass
             || c.defaultClass == c.alwaysClass
  {
  }

  /** Every label that occurs in some list of `userClasses`. */
  ghost function AllLabels(userClasses: seq<seq<string>>): set<string> {
    set i, x | 0 <= i < |userClasses| && x in userClasses[i] :: x
  }

  predicate NoDuplicates(s: seq<string>) {
    forall i, j :: 0 <= i < j < |s| ==> s[i] != s[j]
  }

  /** A user whose labels all occur among the other users' labels adds nothing to the union. */
  lemma CoveredContributorAbsorbed(userClasses: seq<seq<string>>, classes: seq<string>)
    requires forall x :: x in classes ==> x in AllLabels(userClasses)
    ensures AllLabels(userClasses + [classes]) == AllLabels(userClasses)
  {
    AllLabelsSnoc(userClasses, classes);
  }

  /** In particular a copy of an existing contributor adds nothing, however many users share
      the same labels. */
  lemma {:induction false} RepeatedContributorAbsorbed(userClasses: seq<seq<string>>, k: nat)
    requires k < |userClasses|
    ensures AllLabels(userClasses + [userClasses[k]]) == AllLabels(userClasses)
  {
    var extended := userClasses + [userClasses[k]];
    forall x | x in AllLabels(extended) ensures x in AllLabels(userClasses) {
      var i :| 0 <= i < |extended| && x in extended[i];
      if i == |userClasses| {
        assert x in userClasses[k];
      } else {
        assert x in userClasses[i];
      }
    }
    forall x | x in AllLabels(userClasses) ensures x in AllLabels(extended) {
      var i :| 0 <= i < |userClasses| && x in userClasses[i];
      assert x in extended[i];
    }
  }

  lemma AllLabelsSnoc(userClasses: seq<seq<string>>, classes: seq<string>)
    ensures AllLabels(userClasses + [classes]) == AllLabels(userClasses) + set x | x in classes
  {
    var all := userClasses + [classes];
    forall x | x in AllLabels(all)
      ensures x in AllLabels(userClasses) || x in classes
    {
      var i :| 0 <= i < |all| && x in all[i];
      if i < |userClasses| {
        assert all[i] == userClasses[i];
      }
    }
    forall x | x in classes
      ensures x in AllLabels(all)
    {
      assert all[|userClasses|] == classes;
    }
    forall x | x in AllLabels(userClasses)
      ensures x in AllLabels(all)
    {
      var i :| 0 <= i < |userClasses| && x in userClasses[i];
      assert all[i] == userClasses[i];
    }
  }

  /** `Object.keys(classList).forEach(val => finalClasses.push(val))`: each key once, in some order. */
  method PushKeys(classList: set<string>) returns (finalClasses: seq<string>)
    ensures NoDuplicates(finalClasses)
    ensures forall x :: x in finalClasses <==> x in classList
    ensures |finalClasses| == |classList|
  {
    finalClasses := [];
    var keys := classList;
    while keys != {}
      invariant keys <= classList
      invariant NoDuplicates(finalClasses)
      invariant forall x :: x in finalClasses <==> x in classList - keys
      invariant |finalClasses| + |keys| == |classList|
      decreases |keys|
    {
      var val :| val in keys;
      assert val !in finalClasses;
      finalClasses := finalClasses + [val];
      keys := keys - {val};
    }
  }

  /**
   * get_class_set: first records every label of every list as a key of `classList`
   * (an object used as a set), then pushes each key once onto `finalClasses`. The order of
   * the keys is not modelled, so the second loop picks any remaining key.
   */
  method GetClassSet(userClasses: seq<seq<string>>) returns (finalClasses: seq<string>)
    ensures NoDuplicates(finalClasses)
    ensures forall x :: x in finalClasses <==> x in AllLabels(userClasses)
    ensures |finalClasses| == |AllLabels(userClasses)|
  {
    var classList: set<string> := {};
    var i := 0;
    while i < |userClasses|
      invariant 0 <= i <= |userClasses|
      invariant classList == AllLabels(userClasses[..i])
    {
      var classes := userClasses[i];
      var j := 0;
      while j < |classes|
        invariant 0 <= j <= |classes|
        invariant classList == AllLabels(userClasses[..i]) + set k | 0 <= k < j :: classes[k]
      {
        classList := classList + {classes[j]};
        j := j + 1;
      }
      assert (set k | 0 <= k < j :: classes[k]) == set x | x in classes;
      assert userClasses[..i + 1] == userClasses[..i] + [classes];
      AllLabelsSnoc(userClasses[..i], classes);
      i := i + 1;
    }
    assert userClasses[..i] == userClasses;

    finalClasses := PushKeys(classList);
  }
}
