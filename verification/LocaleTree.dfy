/** The pass over the locale documents that decides which leaf paths are used, and prunes by them. */
module LocaleTree {
  import opened Prelude
  import Glob
  import opened LocalePruning
  import opened Splitting

  // ---------------------------------------------------------------------------------------------
  // Dotted paths and their ancestors.
  // ---------------------------------------------------------------------------------------------

  /** A path is its segments joined by dots, as long as none of them is empty. */
  lemma {:induction false} PathsAreJoined(segments: seq<string>)
    requires segments != [] && "" !in segments
    ensures Dotted("", segments) == Join(segments, '.') && Dotted("", segments) != ""
    decreases |segments|
  {
    var last := |segments| - 1;
    DottedSnoc("", segments[..last], segments[last]);
    assert segments == segments[..last] + [segments[last]];
    if last > 0 {
      PathsAreJoined(segments[..last]);
    }
  }

  lemma {:induction false} DottedSnoc(prefix: string, segments: seq<string>, last: string)
    ensures Dotted(prefix, segments + [last]) == Child(Dotted(prefix, segments), last)
    decreases |segments|
  {
    if segments == [] {
      assert [] + [last] == [last] && [last][1..] == [];
    } else {
      assert (segments + [last])[0] == segments[0] && (segments + [last])[1..] == segments[1..] + [last];
      DottedSnoc(Child(prefix, segments[0]), segments[1..], last);
    }
  }

  /** Everything in front of a dot of the key. */
  function Ancestors(key: string): set<string> {
    set i | 0 <= i < |key| && key[i] == '.' :: key[..i]
  }

  /** A key with one more segment has exactly one more ancestor, the key it extends. */
  lemma AncestorsOfChild(parent: string, last: string)
    requires '.' !in last
    ensures Ancestors(parent + ['.'] + last) == Ancestors(parent) + {parent}
  {
    var key := parent + ['.'] + last;
    assert key[..|parent|] == parent && key[|parent|] == '.';
    forall i | |parent| < i < |key|
      ensures key[i] != '.'
    {
      assert key[i] == last[i - |parent| - 1];
    }
    forall i | 0 <= i < |parent|
      ensures key[i] == parent[i] && key[..i] == parent[..i]
    {
    }
  }

  /** Dropping the last segment drops exactly one ancestor, the shortened key itself. */
  lemma AncestorsOfJoin(segments: seq<string>)
    requires |segments| > 1 && '.' !in segments[|segments| - 1]
    ensures
      var shorter := Join(segments[..|segments| - 1], '.');
      Ancestors(Join(segments, '.')) == Ancestors(shorter) + {shorter}
  {
    AncestorsOfChild(Join(segments[..|segments| - 1], '.'), segments[|segments| - 1]);
  }

  lemma NoDotNoAncestor(segment: string)
    requires '.' !in segment
    ensures Ancestors(segment) == {}
  {
  }

  // ---------------------------------------------------------------------------------------------
  // The script itself: sets that grow in place.
  // ---------------------------------------------------------------------------------------------

  class KeySet {
    var keys: set<string>

    constructor ()
      ensures keys == {}
    {
      keys := {};
    }

    method AddLeafKeys(j: Json, prefix: string)
      modifies this
      ensures keys == old(keys) + Paths(j, prefix)
      decreases j
    {
      match j
      case Scalar(_) =>
        if prefix != "" {
          keys := keys + {prefix};
        }
      case Arr(items) =>
        var i := 0;
        while i < |items|
          invariant 0 <= i <= |items|
          invariant keys + PathsOf(ItemLeaves(items[i..], i, prefix)) ==
                    old(keys) + PathsOf(ItemLeaves(items, 0, prefix))
        {
          ItemPaths(items[i..], i, prefix);
          assert items[i..][1..] == items[i + 1..];
          AddLeafKeys(items[i], Child(prefix, Decimal(i)));
          i := i + 1;
        }
      case Obj(fields) =>
        var i := 0;
        while i < |fields|
          invariant 0 <= i <= |fields|
          invariant keys + PathsOf(FieldLeaves(fields[i..], prefix)) == old(keys) + PathsOf(FieldLeaves(fields, prefix))
        {
          FieldPaths(fields[i..], prefix);
          assert fields[i..][1..] == fields[i + 1..];
          AddLeafKeys(fields[i].value, Child(prefix, fields[i].name));
          i := i + 1;
        }
    }

    /** Adds every proper dotted ancestor of a key, longest first. */
    method MarkAncestors(key: string)
      modifies this
      ensures keys == old(keys) + Ancestors(key)
    {
      var segments := Split(key, '.');
      SplitJoin(key, '.');
      PartsHoldNoSeparator(key, '.');
      while |segments| > 1
        invariant segments != [] && forall i :: 0 <= i < |segments| ==> '.' !in segments[i]
        invariant keys + Ancestors(Join(segments, '.')) == old(keys) + Ancestors(key)
        decreases |segments|
      {
        AncestorsOfJoin(segments);
        segments := segments[..|segments| - 1];
        keys := keys + {Join(segments, '.')};
      }
      NoDotNoAncestor(segments[0]);
    }
  }

  lemma ItemPaths(items: seq<Json>, index: nat, prefix: string)
    requires items != []
    ensures PathsOf(ItemLeaves(items, index, prefix)) ==
            Paths(items[0], Child(prefix, Decimal(index))) + PathsOf(ItemLeaves(items[1..], index + 1, prefix))
  {
  }

  lemma FieldPaths(fields: seq<Field>, prefix: string)
    requires fields != []
    ensures PathsOf(FieldLeaves(fields, prefix)) ==
            Paths(fields[0].value, Child(prefix, fields[0].name)) + PathsOf(FieldLeaves(fields[1..], prefix))
  {
  }

  lemma {:induction false} LeafPathsAreNotEmpty(j: Json, prefix: string)
    ensures "" !in Paths(j, prefix)
    decreases j, 1
  {
    match j
    case Scalar(_) =>
    case Arr(items) => ItemPathsAreNotEmpty(items, 0, prefix);
    case Obj(fields) => FieldPathsAreNotEmpty(fields, prefix);
  }

  lemma {:induction false} ItemPathsAreNotEmpty(items: seq<Json>, index: nat, prefix: string)
    ensures "" !in PathsOf(ItemLeaves(items, index, prefix))
    decreases items, 0
  {
    if items != [] {
      ItemPaths(items, index, prefix);
      LeafPathsAreNotEmpty(items[0], Child(prefix, Decimal(index)));
      ItemPathsAreNotEmpty(items[1..], index + 1, prefix);
    }
  }

  lemma {:induction false} FieldPathsAreNotEmpty(fields: seq<Field>, prefix: string)
    ensures "" !in PathsOf(FieldLeaves(fields, prefix))
    decreases fields, 0
  {
    if fields != [] {
      FieldPaths(fields, prefix);
      LeafPathsAreNotEmpty(fields[0].value, Child(prefix, fields[0].name));
      FieldPathsAreNotEmpty(fields[1..], prefix);
    }
  }

  /** The code names the key outright or through a dynamic pattern. */
  ghost predicate Named(key: string, exact: set<string>, patterns: seq<seq<string>>)
    requires forall i :: 0 <= i < |patterns| ==> patterns[i] != []
  {
    key in exact || exists i :: 0 <= i < |patterns| && Glob.Matches(key, patterns[i])
  }

  /** A leaf survives if it is named, or is a dotted ancestor of a key the code names. */
  ghost predicate Referenced(key: string, leaves: set<string>, exact: set<string>, patterns: seq<seq<string>>)
    requires forall i :: 0 <= i < |patterns| ==> patterns[i] != []
  {
    || Named(key, exact, patterns)
    || exists k :: (k in exact || (k in leaves && Named(k, exact, patterns))) && key in Ancestors(k)
  }

  /** Tries the patterns in turn and stops at the first that matches. */
  method MatchesAny(key: string, patterns: seq<seq<string>>) returns (hit: bool)
    requires forall i :: 0 <= i < |patterns| ==> patterns[i] != []
    ensures hit <==> exists i :: 0 <= i < |patterns| && Glob.Matches(key, patterns[i])
  {
    hit := false;
    var i := 0;
    while i < |patterns| && !hit
      invariant 0 <= i <= |patterns|
      invariant hit <==> exists n :: 0 <= n < i && Glob.Matches(key, patterns[n])
    {
      hit := Glob.MatchesPattern(key, patterns[i]);
      i := i + 1;
    }
  }

  /** Adds every leaf that some pattern matches. */
  method AddMatched(leaves: set<string>, exact: KeySet, patterns: seq<seq<string>>)
    requires forall i :: 0 <= i < |patterns| ==> patterns[i] != []
    modifies exact
    ensures forall k :: k in exact.keys <==>
              k in old(exact.keys) || (k in leaves && Named(k, old(exact.keys), patterns))
  {
    var todo := leaves;
    while todo != {}
      invariant todo <= leaves
      invariant forall k :: k in exact.keys <==>
                  k in old(exact.keys) || (k in leaves - todo && Named(k, old(exact.keys), patterns))
      decreases todo
    {
      var key :| key in todo;
      var hit := MatchesAny(key, patterns);
      if hit {
        exact.keys := exact.keys + {key};
      }
      todo := todo - {key};
    }
  }

  ghost predicate UnderSome(key: string, names: set<string>) {
    exists n :: n in names && key in Ancestors(n)
  }

  lemma UnderSomeMore(key: string, names: set<string>, name: string)
    ensures UnderSome(key, names + {name}) <==> UnderSome(key, names) || key in Ancestors(name)
  {
  }

  method MarkAllAncestors(exact: KeySet)
    modifies exact
    ensures forall k :: k in exact.keys <==> k in old(exact.keys) || UnderSome(k, old(exact.keys))
  {
    var todo := exact.keys;
    ghost var done: set<string> := {};
    while todo != {}
      invariant done + todo == old(exact.keys)
      invariant forall k :: k in exact.keys <==> k in old(exact.keys) || UnderSome(k, done)
      decreases todo
    {
      var key :| key in todo;
      exact.MarkAncestors(key);
      forall k
        ensures UnderSome(k, done + {key}) <==> UnderSome(k, done) || k in Ancestors(key)
      {
        UnderSomeMore(k, done, key);
      }
      todo, done := todo - {key}, done + {key};
    }
    assert done == old(exact.keys);
  }

  /** The leaf paths of all locale documents together. */
  function AllPaths(docs: seq<Json>): set<string> {
    if docs == [] then {} else Paths(docs[0], "") + AllPaths(docs[1..])
  }

  lemma {:induction false} AllPathsAre(docs: seq<Json>)
    ensures forall i :: 0 <= i < |docs| ==> Paths(docs[i], "") <= AllPaths(docs)
    ensures forall k :: k in AllPaths(docs) ==> exists i :: 0 <= i < |docs| && k in Paths(docs[i], "")
    ensures "" !in AllPaths(docs)
  {
    if docs != [] {
      AllPathsAre(docs[1..]);
      LeafPathsAreNotEmpty(docs[0], "");
      forall i | 0 <= i < |docs|
        ensures Paths(docs[i], "") <= AllPaths(docs)
      {
        if i > 0 {
          assert docs[i] == docs[1..][i - 1];
        }
      }
      forall k | k in AllPaths(docs)
        ensures exists i :: 0 <= i < |docs| && k in Paths(docs[i], "")
      {
        if k !in Paths(docs[0], "") {
          var i :| 0 <= i < |docs[1..]| && k in Paths(docs[1..][i], "");
          assert docs[1..][i] == docs[i + 1];
        }
      }
    }
  }

  /** The leaf paths in use: named outright, through a pattern, or as an ancestor of such a key. */
  ghost function Used(docs: seq<Json>, named: set<string>, patterns: seq<seq<string>>): set<string>
    requires forall i :: 0 <= i < |patterns| ==> patterns[i] != []
  {
    set k | k in AllPaths(docs) && Referenced(k, AllPaths(docs), named, patterns)
  }

  /** The paths in use, computed with growing sets as the script does. */
  method UsedPaths(docs: seq<Json>, named: set<string>, patterns: seq<seq<string>>) returns (used: set<string>)
    requires forall i :: 0 <= i < |patterns| ==> patterns[i] != []
    ensures used == Used(docs, named, patterns)
  {
    var all := new KeySet();
    var i := 0;
    while i < |docs|
      invariant 0 <= i <= |docs|
      invariant all.keys + AllPaths(docs[i..]) == AllPaths(docs)
    {
      assert docs[i..][1..] == docs[i + 1..];
      all.AddLeafKeys(docs[i], "");
      i := i + 1;
    }
    assert docs[i..] == [];
    var exact := new KeySet();
    exact.keys := named;
    AddMatched(all.keys, exact, patterns);
    ghost var matched := exact.keys;
    MarkAllAncestors(exact);
    used := set k | k in all.keys && k in exact.keys;
    forall k | k in all.keys
      ensures k in used <==> Referenced(k, AllPaths(docs), named, patterns)
    {
      assert k in matched <==> Named(k, named, patterns);
      if UnderSome(k, matched) {
        var n :| n in matched && k in Ancestors(n);
      }
    }
  }

  /** What the pass promises for one document. */
  ghost predicate PassedOn(doc: Json, pruned: Option<Json>, used: set<string>) {
    && Values(Remaining(pruned, "")) == Values(Keep(Leaves(doc, ""), used))
    && (Remaining(pruned, "") == Keep(Leaves(doc, ""), used) <==> NoItemMoves(doc, "", used))
    && (ObjectOnly(doc) ==> NoItemMoves(doc, "", used))
    && (pruned.Some? ==> Tidy(pruned.value) && Remaining(pruned, "") != [])
  }

  lemma OneDocument(doc: Json, used: set<string>)
    requires "" !in used
    ensures PassedOn(doc, Prune(doc, "", used), used)
  {
    PruneKeepsValues(doc, "", used, "");
    PruneKeepsUsedLeaves(doc, "", used);
    if ObjectOnly(doc) {
      ObjectsHaveNothingToMove(doc, "", used);
    }
    if Prune(doc, "", used).Some? {
      PruneIsTidyAndStable(doc, "", used);
      ValuesCount(Remaining(Prune(doc, "", used), ""));
      ValuesCount(Keep(Leaves(doc, ""), used));
    }
  }

  /**
   * The whole pass over the locale documents.  Of each document exactly the values at referenced paths
   * survive, in order, so no value the code names is ever removed; they keep their paths if and only if
   * no array item moves up; nothing empty is left behind.
   */
  method PruneUnused(docs: seq<Json>, named: set<string>, patterns: seq<seq<string>>)
    returns (pruned: seq<Option<Json>>)
    requires forall i :: 0 <= i < |patterns| ==> patterns[i] != []
    ensures |pruned| == |docs|
    ensures forall i :: 0 <= i < |docs| ==>
              Values(Remaining(pruned[i], "")) == Values(Keep(Leaves(docs[i], ""), Used(docs, named, patterns)))
    ensures forall i :: 0 <= i < |docs| ==>
              (Remaining(pruned[i], "") == Keep(Leaves(docs[i], ""), Used(docs, named, patterns))
               <==> NoItemMoves(docs[i], "", Used(docs, named, patterns)))
    ensures forall i :: 0 <= i < |docs| && ObjectOnly(docs[i]) ==>
              Remaining(pruned[i], "") == Keep(Leaves(docs[i], ""), Used(docs, named, patterns))
    ensures forall i :: 0 <= i < |docs| && pruned[i].Some? ==> Tidy(pruned[i].value) && Remaining(pruned[i], "") != []
  {
    var used := UsedPaths(docs, named, patterns);
    AllPathsAre(docs);
    pruned := [];
    var i := 0;
    while i < |docs|
      invariant 0 <= i <= |docs| && |pruned| == i
      invariant forall n :: 0 <= n < i ==> pruned[n] == Prune(docs[n], "", used)
    {
      pruned := pruned + [Prune(docs[i], "", used)];
      i := i + 1;
    }
    forall n | 0 <= n < |docs|
      ensures PassedOn(docs[n], pruned[n], used)
    {
      OneDocument(docs[n], used);
    }
  }
}
