/** Locale documents: flattening to dotted leaf paths, and pruning by a set of used paths. */
module LocalePruning {
  import opened Prelude

  /** A JSON value; a scalar is any string, number, boolean or null, kept as its text. */
  datatype Json = Scalar(text: string) | Arr(items: seq<Json>) | Obj(fields: seq<Field>)

  datatype Field = Field(name: string, value: Json)

  datatype Leaf = Leaf(path: string, value: Json)

  /** An empty prefix adds no dot, also when it comes from an empty key. */
  function Child(prefix: string, name: string): string {
    if prefix == "" then name else prefix + "." + name
  }

  // ---------------------------------------------------------------------------------------------
  // Specification: leaves in document order, and pruning.
  // ---------------------------------------------------------------------------------------------

  function Leaves(j: Json, prefix: string): seq<Leaf>
    decreases j, 1
  {
    match j
    case Scalar(_) => if prefix != "" then [Leaf(prefix, j)] else []
    case Arr(items) => ItemLeaves(items, 0, prefix)
    case Obj(fields) => FieldLeaves(fields, prefix)
  }

  function ItemLeaves(items: seq<Json>, index: nat, prefix: string): seq<Leaf>
    decreases items, 0
  {
    if items == [] then []
    else Leaves(items[0], Child(prefix, Decimal(index))) + ItemLeaves(items[1..], index + 1, prefix)
  }

  function FieldLeaves(fields: seq<Field>, prefix: string): seq<Leaf>
    decreases fields, 0
  {
    if fields == [] then []
    else Leaves(fields[0].value, Child(prefix, fields[0].name)) + FieldLeaves(fields[1..], prefix)
  }

  /** Following names and item numbers from the document leads to the scalar. */
  ghost predicate Leads(j: Json, segments: seq<string>, v: Json)
    decreases j
  {
    match j
    case Scalar(_) => segments == [] && v == j
    case Arr(items) =>
      segments != [] &&
      exists i :: 0 <= i < |items| && segments[0] == Decimal(i) && Leads(items[i], segments[1..], v)
    case Obj(fields) =>
      segments != [] &&
      exists i :: 0 <= i < |fields| && segments[0] == fields[i].name && Leads(fields[i].value, segments[1..], v)
  }

  function Dotted(prefix: string, segments: seq<string>): string
    decreases |segments|
  {
    if segments == [] then prefix else Dotted(Child(prefix, segments[0]), segments[1..])
  }

  ghost predicate LeadsTo(j: Json, prefix: string, l: Leaf) {
    exists segments :: Leads(j, segments, l.value) && Dotted(prefix, segments) == l.path
  }

  /** The leaves are exactly the scalars one can be led to, each at the dotted path of the way there. */
  lemma {:induction false} LeavesAreWhatOneIsLedTo(j: Json, prefix: string, l: Leaf)
    ensures l in Leaves(j, prefix) <==> l.path != "" && LeadsTo(j, prefix, l)
    decreases j, 1
  {
    match j
    case Scalar(_) =>
      assert Leads(j, [], j) && Dotted(prefix, []) == prefix;
    case Arr(items) =>
      ItemLeavesAreLedTo(items, 0, prefix, l);
      LedThroughItem(items, prefix, l);
    case Obj(fields) =>
      FieldLeavesAreLedTo(fields, prefix, l);
      LedThroughField(fields, prefix, l);
  }

  lemma LedThroughItem(items: seq<Json>, prefix: string, l: Leaf)
    ensures LeadsTo(Arr(items), prefix, l) <==>
            exists i :: 0 <= i < |items| && LeadsTo(items[i], Child(prefix, Decimal(0 + i)), l)
  {
    var j := Arr(items);
    if LeadsTo(j, prefix, l) {
      var segments :| Leads(j, segments, l.value) && Dotted(prefix, segments) == l.path;
      var i :| 0 <= i < |items| && segments[0] == Decimal(i) && Leads(items[i], segments[1..], l.value);
      assert LeadsTo(items[i], Child(prefix, Decimal(0 + i)), l);
    }
    if i :| 0 <= i < |items| && LeadsTo(items[i], Child(prefix, Decimal(0 + i)), l) {
      var segments :| Leads(items[i], segments, l.value) && Dotted(Child(prefix, Decimal(i)), segments) == l.path;
      OneSegmentMore(prefix, Decimal(i), segments);
      assert Leads(j, [Decimal(i)] + segments, l.value);
    }
  }

  lemma LedThroughField(fields: seq<Field>, prefix: string, l: Leaf)
    ensures LeadsTo(Obj(fields), prefix, l) <==>
            exists i :: 0 <= i < |fields| && LeadsTo(fields[i].value, Child(prefix, fields[i].name), l)
  {
    var j := Obj(fields);
    if LeadsTo(j, prefix, l) {
      var segments :| Leads(j, segments, l.value) && Dotted(prefix, segments) == l.path;
      var i :| 0 <= i < |fields| && segments[0] == fields[i].name && Leads(fields[i].value, segments[1..], l.value);
      assert LeadsTo(fields[i].value, Child(prefix, fields[i].name), l);
    }
    if i :| 0 <= i < |fields| && LeadsTo(fields[i].value, Child(prefix, fields[i].name), l) {
      var name := fields[i].name;
      var segments :| Leads(fields[i].value, segments, l.value) && Dotted(Child(prefix, name), segments) == l.path;
      OneSegmentMore(prefix, name, segments);
      assert Leads(j, [name] + segments, l.value);
    }
  }

  lemma OneSegmentMore(prefix: string, segment: string, segments: seq<string>)
    ensures Dotted(prefix, [segment] + segments) == Dotted(Child(prefix, segment), segments)
    ensures ([segment] + segments)[0] == segment && ([segment] + segments)[1..] == segments
  {
  }

  lemma {:induction false} ItemLeavesAreLedTo(items: seq<Json>, index: nat, prefix: string, l: Leaf)
    ensures l in ItemLeaves(items, index, prefix) <==>
            l.path != "" && exists i :: 0 <= i < |items| && LeadsTo(items[i], Child(prefix, Decimal(index + i)), l)
    decreases items, 0
  {
    if items != [] {
      LeavesAreWhatOneIsLedTo(items[0], Child(prefix, Decimal(index)), l);
      ItemLeavesAreLedTo(items[1..], index + 1, prefix, l);
      if i :| 0 <= i < |items[1..]| && LeadsTo(items[1..][i], Child(prefix, Decimal(index + 1 + i)), l) {
        assert LeadsTo(items[i + 1], Child(prefix, Decimal(index + (i + 1))), l);
      }
      if i :| 0 <= i < |items| && LeadsTo(items[i], Child(prefix, Decimal(index + i)), l) {
        if i > 0 {
          assert LeadsTo(items[1..][i - 1], Child(prefix, Decimal(index + 1 + (i - 1))), l);
        }
      }
    }
  }

  lemma {:induction false} FieldLeavesAreLedTo(fields: seq<Field>, prefix: string, l: Leaf)
    ensures l in FieldLeaves(fields, prefix) <==>
            l.path != "" && exists i :: 0 <= i < |fields| && LeadsTo(fields[i].value, Child(prefix, fields[i].name), l)
    decreases fields, 0
  {
    if fields != [] {
      LeavesAreWhatOneIsLedTo(fields[0].value, Child(prefix, fields[0].name), l);
      FieldLeavesAreLedTo(fields[1..], prefix, l);
      if i :| 0 <= i < |fields[1..]| && LeadsTo(fields[1..][i].value, Child(prefix, fields[1..][i].name), l) {
        assert fields[1..][i] == fields[i + 1];
      }
      if i :| 0 <= i < |fields| && LeadsTo(fields[i].value, Child(prefix, fields[i].name), l) {
        if i > 0 {
          assert fields[1..][i - 1] == fields[i];
        }
      }
    }
  }

  function PathsOf(leaves: seq<Leaf>): set<string> {
    set l | l in leaves :: l.path
  }

  function Paths(j: Json, prefix: string): set<string> {
    PathsOf(Leaves(j, prefix))
  }

  /** Keeps used scalars; an object or array left with nothing disappears. */
  function Prune(j: Json, prefix: string, used: set<string>): Option<Json>
    decreases j, 1
  {
    match j
    case Scalar(_) => if prefix in used then Some(j) else None
    case Arr(items) =>
      var next := PruneItems(items, 0, prefix, used);
      if next == [] then None else Some(Arr(next))
    case Obj(fields) =>
      var next := PruneFields(fields, prefix, used);
      if next == [] then None else Some(Obj(next))
  }

  function PruneItems(items: seq<Json>, index: nat, prefix: string, used: set<string>): seq<Json>
    decreases items, 0
  {
    if items == [] then []
    else
      var rest := PruneItems(items[1..], index + 1, prefix, used);
      match Prune(items[0], Child(prefix, Decimal(index)), used)
      case None => rest
      case Some(kept) => [kept] + rest
  }

  function PruneFields(fields: seq<Field>, prefix: string, used: set<string>): seq<Field>
    decreases fields, 0
  {
    if fields == [] then []
    else
      var rest := PruneFields(fields[1..], prefix, used);
      match Prune(fields[0].value, Child(prefix, fields[0].name), used)
      case None => rest
      case Some(kept) => [Field(fields[0].name, kept)] + rest
  }

  /** The leaves whose path is used, in order, with their values. */
  function Keep(leaves: seq<Leaf>, used: set<string>): seq<Leaf> {
    if leaves == [] then []
    else (if leaves[0].path in used then [leaves[0]] else []) + Keep(leaves[1..], used)
  }

  lemma {:induction false} KeepAppend(xs: seq<Leaf>, ys: seq<Leaf>, used: set<string>)
    ensures Keep(xs + ys, used) == Keep(xs, used) + Keep(ys, used)
  {
    if xs == [] {
      assert xs + ys == ys;
    } else {
      var head := if xs[0].path in used then [xs[0]] else [];
      assert (xs + ys)[0] == xs[0] && (xs + ys)[1..] == xs[1..] + ys;
      KeepAppend(xs[1..], ys, used);
      assert Keep(xs + ys, used) == head + (Keep(xs[1..], used) + Keep(ys, used));
    }
  }

  lemma {:induction false} KeepIs(leaves: seq<Leaf>, used: set<string>)
    ensures forall l :: l in Keep(leaves, used) <==> l in leaves && l.path in used
  {
    if leaves != [] {
      KeepIs(leaves[1..], used);
      assert leaves == [leaves[0]] + leaves[1..];
    }
  }

  /** What is left of a document, as leaves; a document with nothing left has none. */
  function Remaining(pruned: Option<Json>, prefix: string): seq<Leaf> {
    if pruned.Some? then Leaves(pruned.value, prefix) else []
  }

  // ---------------------------------------------------------------------------------------------
  // Values are kept in every document.
  // ---------------------------------------------------------------------------------------------

  function Values(leaves: seq<Leaf>): seq<Json> {
    if leaves == [] then [] else [leaves[0].value] + Values(leaves[1..])
  }

  lemma {:induction false} ValuesAppend(xs: seq<Leaf>, ys: seq<Leaf>)
    ensures Values(xs + ys) == Values(xs) + Values(ys)
  {
    if xs == [] {
      assert xs + ys == ys;
    } else {
      assert (xs + ys)[1..] == xs[1..] + ys;
      ValuesAppend(xs[1..], ys);
    }
  }

  lemma {:induction false} ValuesCount(xs: seq<Leaf>)
    ensures |Values(xs)| == |xs|
  {
    if xs != [] {
      ValuesCount(xs[1..]);
    }
  }

  /**
   * The values of the used leaves are what is left, in order, wherever the pruned document is read
   * from; a document with no used leaf prunes to nothing.
   */
  lemma {:induction false} PruneKeepsValues(j: Json, prefix: string, used: set<string>, q: string)
    requires "" !in used && (q == "" <==> prefix == "")
    ensures Values(Remaining(Prune(j, prefix, used), q)) == Values(Keep(Leaves(j, prefix), used))
    ensures Prune(j, prefix, used).None? <==> Keep(Leaves(j, prefix), used) == []
    decreases j, 1
  {
    match j
    case Scalar(_) =>
    case Arr(items) => PruneItemsKeepsValues(items, 0, prefix, used, 0, q);
    case Obj(fields) => PruneFieldsKeepsValues(fields, prefix, used, q);
  }

  lemma {:induction false} PruneItemsKeepsValues(
      items: seq<Json>, index: nat, prefix: string, used: set<string>, moved: nat, q: string)
    requires "" !in used && (q == "" <==> prefix == "")
    ensures Values(ItemLeaves(PruneItems(items, index, prefix, used), moved, q)) ==
            Values(Keep(ItemLeaves(items, index, prefix), used))
    ensures PruneItems(items, index, prefix, used) == [] <==> Keep(ItemLeaves(items, index, prefix), used) == []
    decreases items, 0
  {
    if items != [] {
      var path, rest := Child(prefix, Decimal(index)), PruneItems(items[1..], index + 1, prefix, used);
      DecimalIsDigits(index);
      DecimalIsDigits(moved);
      KeepAppend(Leaves(items[0], path), ItemLeaves(items[1..], index + 1, prefix), used);
      ValuesAppend(Keep(Leaves(items[0], path), used), Keep(ItemLeaves(items[1..], index + 1, prefix), used));
      PruneKeepsValues(items[0], path, used, Child(q, Decimal(moved)));
      match Prune(items[0], path, used)
      case None =>
        PruneItemsKeepsValues(items[1..], index + 1, prefix, used, moved, q);
      case Some(kept) =>
        PruneItemsKeepsValues(items[1..], index + 1, prefix, used, moved + 1, q);
        assert ([kept] + rest)[1..] == rest;
        ValuesAppend(Leaves(kept, Child(q, Decimal(moved))), ItemLeaves(rest, moved + 1, q));
    }
  }

  lemma {:induction false} PruneFieldsKeepsValues(fields: seq<Field>, prefix: string, used: set<string>, q: string)
    requires "" !in used && (q == "" <==> prefix == "")
    ensures Values(FieldLeaves(PruneFields(fields, prefix, used), q)) == Values(Keep(FieldLeaves(fields, prefix), used))
    ensures PruneFields(fields, prefix, used) == [] <==> Keep(FieldLeaves(fields, prefix), used) == []
    decreases fields, 0
  {
    if fields != [] {
      var name := fields[0].name;
      var path, rest := Child(prefix, name), PruneFields(fields[1..], prefix, used);
      KeepAppend(Leaves(fields[0].value, path), FieldLeaves(fields[1..], prefix), used);
      ValuesAppend(Keep(Leaves(fields[0].value, path), used), Keep(FieldLeaves(fields[1..], prefix), used));
      PruneKeepsValues(fields[0].value, path, used, Child(q, name));
      PruneFieldsKeepsValues(fields[1..], prefix, used, q);
      match Prune(fields[0].value, path, used)
      case None =>
      case Some(kept) =>
        assert ([Field(name, kept)] + rest)[1..] == rest;
        ValuesAppend(Leaves(kept, Child(q, name)), FieldLeaves(rest, q));
    }
  }

  // ---------------------------------------------------------------------------------------------
  // Paths are kept exactly if no array item moves.
  // ---------------------------------------------------------------------------------------------

  /** In no array of the document does an item with a used leaf stand behind an item without one. */
  predicate NoItemMoves(j: Json, prefix: string, used: set<string>)
    decreases j, 1
  {
    match j
    case Scalar(_) => true
    case Arr(items) => NoItemMovesIn(items, 0, prefix, used)
    case Obj(fields) => NoItemMovesUnder(fields, prefix, used)
  }

  predicate NoItemMovesIn(items: seq<Json>, index: nat, prefix: string, used: set<string>)
    decreases items, 0
  {
    items == [] ||
    (&& NoItemMoves(items[0], Child(prefix, Decimal(index)), used)
     && NoItemMovesIn(items[1..], index + 1, prefix, used)
     && (Keep(Leaves(items[0], Child(prefix, Decimal(index))), used) == [] ==>
           Keep(ItemLeaves(items[1..], index + 1, prefix), used) == []))
  }

  predicate NoItemMovesUnder(fields: seq<Field>, prefix: string, used: set<string>)
    decreases fields, 0
  {
    fields == [] ||
    (&& NoItemMoves(fields[0].value, Child(prefix, fields[0].name), used)
     && NoItemMovesUnder(fields[1..], prefix, used))
  }

  predicate Under(path: string, q: string) {
    path == q || (|path| > |q| && path[..|q|] == q && path[|q|] == '.')
  }

  lemma {:induction false} LeavesLieUnder(j: Json, q: string)
    requires q != ""
    ensures forall l :: l in Leaves(j, q) ==> Under(l.path, q)
    decreases j, 1
  {
    match j
    case Scalar(_) =>
    case Arr(items) => ItemLeavesLieUnder(items, 0, q);
    case Obj(fields) => FieldLeavesLieUnder(fields, q);
  }

  lemma UnderChild(path: string, q: string, name: string)
    requires q != "" && Under(path, Child(q, name))
    ensures Under(path, q)
  {
    var c := Child(q, name);
    assert c[..|q|] == q && c[|q|] == '.';
    assert path[..|c|] == c;
    assert path[..|q|] == c[..|q|];
    assert path[|q|] == c[|q|];
  }

  lemma {:induction false} ItemLeavesLieUnder(items: seq<Json>, index: nat, q: string)
    requires q != ""
    ensures forall l :: l in ItemLeaves(items, index, q) ==> Under(l.path, q)
    decreases items, 0
  {
    if items != [] {
      var c := Child(q, Decimal(index));
      LeavesLieUnder(items[0], c);
      ItemLeavesLieUnder(items[1..], index + 1, q);
      forall l | l in Leaves(items[0], c)
        ensures Under(l.path, q)
      {
        UnderChild(l.path, q, Decimal(index));
      }
    }
  }

  lemma {:induction false} FieldLeavesLieUnder(fields: seq<Field>, q: string)
    requires q != ""
    ensures forall l :: l in FieldLeaves(fields, q) ==> Under(l.path, q)
    decreases fields, 0
  {
    if fields != [] {
      var c := Child(q, fields[0].name);
      LeavesLieUnder(fields[0].value, c);
      FieldLeavesLieUnder(fields[1..], q);
      forall l | l in Leaves(fields[0].value, c)
        ensures Under(l.path, q)
      {
        UnderChild(l.path, q, fields[0].name);
      }
    }
  }

  lemma NoDotInside(path: string, base: string, k: nat, n: nat)
    requires Under(path, base + Decimal(k)) && |base| <= n < |base + Decimal(k)|
    ensures n < |path| && path[n] != '.'
  {
    var r := base + Decimal(k);
    DecimalIsDigits(k);
    assert path[..|r|] == r;
    assert path[n] == r[n] == Decimal(k)[n - |base|];
  }

  /** The number in a path ends at a dot or at the end of the path. */
  lemma NotShorter(path: string, base: string, i: nat, k: nat)
    requires Under(path, base + Decimal(i)) && Under(path, base + Decimal(k))
    ensures |Decimal(i)| >= |Decimal(k)|
  {
    if |Decimal(i)| < |Decimal(k)| {
      NoDotInside(path, base, k, |base + Decimal(i)|);
    }
  }

  lemma SameNumber(path: string, base: string, i: nat, k: nat)
    requires Under(path, base + Decimal(i)) && Under(path, base + Decimal(k))
    ensures i == k
  {
    NotShorter(path, base, i, k);
    NotShorter(path, base, k, i);
    var q, r := base + Decimal(i), base + Decimal(k);
    assert q == path[..|q|] == r;
    assert q[|base|..] == Decimal(i) && r[|base|..] == Decimal(k);
    DecimalInjective(i, k);
  }

  /** No path lies under two items of an array. */
  lemma ItemsAreApart(path: string, prefix: string, i: nat, k: nat)
    requires Under(path, Child(prefix, Decimal(i))) && Under(path, Child(prefix, Decimal(k)))
    ensures i == k
  {
    var base := if prefix == "" then "" else prefix + ".";
    assert Child(prefix, Decimal(i)) == base + Decimal(i) && Child(prefix, Decimal(k)) == base + Decimal(k);
    SameNumber(path, base, i, k);
  }

  lemma {:induction false} KeepIsPart(leaves: seq<Leaf>, used: set<string>)
    ensures forall l :: l in Keep(leaves, used) ==> l in leaves
  {
    KeepIs(leaves, used);
  }

  /** Two pieces on each side, the first ones equally long. */
  lemma PieceByPiece(a: seq<Leaf>, b: seq<Leaf>, c: seq<Leaf>, d: seq<Leaf>)
    requires |a| == |c|
    ensures a + b == c + d <==> a == c && b == d
  {
    if a + b == c + d {
      assert a == (a + b)[..|a|] && c == (c + d)[..|c|];
      assert b == (a + b)[|a|..] && d == (c + d)[|c|..];
    }
  }

  /**
   * The leaves of the pruned document are exactly the used leaves of the original, the same paths and
   * values in the same order, if and only if no item of an array moves up.
   */
  lemma {:induction false} PruneKeepsUsedLeaves(j: Json, prefix: string, used: set<string>)
    requires "" !in used
    ensures Remaining(Prune(j, prefix, used), prefix) == Keep(Leaves(j, prefix), used) <==> NoItemMoves(j, prefix, used)
    decreases j, 1
  {
    match j
    case Scalar(_) =>
    case Arr(items) => PruneItemsKeepsUsedLeaves(items, 0, prefix, used, 0);
    case Obj(fields) => PruneFieldsKeepsUsedLeaves(fields, prefix, used);
  }

  /** The same for the items from `index` on, when the ones before left `moved` of themselves. */
  lemma {:induction false} PruneItemsKeepsUsedLeaves(
      items: seq<Json>, index: nat, prefix: string, used: set<string>, moved: nat)
    requires "" !in used && moved <= index
    ensures ItemLeaves(PruneItems(items, index, prefix, used), moved, prefix)
            == Keep(ItemLeaves(items, index, prefix), used)
            <==> NoItemMovesIn(items, index, prefix, used)
                 && (moved == index || Keep(ItemLeaves(items, index, prefix), used) == [])
    decreases items, 0
  {
    if items != [] {
      var path, at := Child(prefix, Decimal(index)), Child(prefix, Decimal(moved));
      var rest := PruneItems(items[1..], index + 1, prefix, used);
      var here, behind := Keep(Leaves(items[0], path), used), Keep(ItemLeaves(items[1..], index + 1, prefix), used);
      DecimalIsDigits(index);
      DecimalIsDigits(moved);
      KeepAppend(Leaves(items[0], path), ItemLeaves(items[1..], index + 1, prefix), used);
      PruneKeepsUsedLeaves(items[0], path, used);
      PruneKeepsValues(items[0], path, used, at);
      match Prune(items[0], path, used)
      case None =>
        PruneItemsKeepsUsedLeaves(items[1..], index + 1, prefix, used, moved);
      case Some(kept) =>
        PruneItemsKeepsUsedLeaves(items[1..], index + 1, prefix, used, moved + 1);
        assert ([kept] + rest)[1..] == rest;
        ValuesCount(Leaves(kept, at));
        ValuesCount(here);
        PieceByPiece(Leaves(kept, at), ItemLeaves(rest, moved + 1, prefix), here, behind);
        if moved < index {
          MovedItemShows(kept, at, items[0], path, used, prefix, moved, index);
        }
    }
  }

  lemma MovedItemShows(
      kept: Json, at: string, item: Json, path: string, used: set<string>, prefix: string, moved: nat, index: nat)
    requires moved != index && at == Child(prefix, Decimal(moved)) && path == Child(prefix, Decimal(index))
    requires Keep(Leaves(item, path), used) != []
    ensures Leaves(kept, at) != Keep(Leaves(item, path), used)
  {
    var here := Keep(Leaves(item, path), used);
    DecimalIsDigits(index);
    DecimalIsDigits(moved);
    KeepIsPart(Leaves(item, path), used);
    LeavesLieUnder(item, path);
    LeavesLieUnder(kept, at);
    assert here[0] in here;
    if Leaves(kept, at) == here {
      ItemsAreApart(here[0].path, prefix, moved, index);
    }
  }

  lemma {:induction false} PruneFieldsKeepsUsedLeaves(fields: seq<Field>, prefix: string, used: set<string>)
    requires "" !in used
    ensures FieldLeaves(PruneFields(fields, prefix, used), prefix) == Keep(FieldLeaves(fields, prefix), used)
            <==> NoItemMovesUnder(fields, prefix, used)
    decreases fields, 0
  {
    if fields != [] {
      var path, rest := Child(prefix, fields[0].name), PruneFields(fields[1..], prefix, used);
      var here, behind := Keep(Leaves(fields[0].value, path), used), Keep(FieldLeaves(fields[1..], prefix), used);
      PruneKeepsUsedLeaves(fields[0].value, path, used);
      PruneKeepsValues(fields[0].value, path, used, path);
      PruneFieldsKeepsUsedLeaves(fields[1..], prefix, used);
      KeepAppend(Leaves(fields[0].value, path), FieldLeaves(fields[1..], prefix), used);
      match Prune(fields[0].value, path, used)
      case None =>
      case Some(kept) =>
        assert ([Field(fields[0].name, kept)] + rest)[1..] == rest;
        ValuesCount(Leaves(kept, path));
        ValuesCount(here);
        PieceByPiece(Leaves(kept, path), FieldLeaves(rest, prefix), here, behind);
    }
  }

  /** A document whose leaf moves: dropping an item renumbers the one behind it, and a second pruning drops that too. */
  lemma ArraysShift(a: Json, b: Json)
    requires a.Scalar? && b.Scalar?
    ensures Prune(Arr([a, b]), "k", {"k.1"}) == Some(Arr([b]))
    ensures Leaves(Arr([b]), "k") == [Leaf("k.0", b)]
    ensures Keep(Leaves(Arr([a, b]), "k"), {"k.1"}) == [Leaf("k.1", b)]
    ensures Prune(Arr([b]), "k", {"k.1"}) == None
  {
    assert Decimal(0) == "0" && Decimal(1) == "1";
    assert Child("k", "0") == "k.0" && Child("k", "1") == "k.1";
    assert "k.0"[2] != "k.1"[2];
    var used := {"k.1"};
    assert "k.0" !in used;
    var items := [a, b];
    assert items[1..] == [b] && [b][1..] == [];
    assert PruneItems([b], 1, "k", used) == [b] + PruneItems([], 2, "k", used);
    assert Prune(a, "k.0", used) == None;
    assert PruneItems(items, 0, "k", used) == PruneItems([b], 1, "k", used) == [b];
    assert Prune(Arr(items), "k", used) == Some(Arr([b]));
    assert PruneItems([b], 0, "k", used) == PruneItems([], 1, "k", used) == [];
    assert ItemLeaves([b], 1, "k") == Leaves(b, "k.1") + ItemLeaves([], 2, "k");
    assert ItemLeaves([b], 0, "k") == Leaves(b, "k.0") + ItemLeaves([], 1, "k");
    assert ItemLeaves(items, 0, "k") == Leaves(a, "k.0") + ItemLeaves(items[1..], 1, "k");
    KeepAppend(Leaves(a, "k.0"), ItemLeaves([b], 1, "k"), used);
    assert [Leaf("k.0", a)][1..] == [] && [Leaf("k.1", b)][1..] == [];
    assert Keep([Leaf("k.0", a)], used) == [];
    assert Keep([Leaf("k.1", b)], used) == [Leaf("k.1", b)];
  }

  /** Documents without arrays, as the shipped ones are. */
  predicate ObjectOnly(j: Json)
    decreases j, 1
  {
    match j
    case Scalar(_) => true
    case Arr(_) => false
    case Obj(fields) => ObjectOnlyFields(fields)
  }

  predicate ObjectOnlyFields(fields: seq<Field>)
    decreases fields, 0
  {
    fields == [] || (ObjectOnly(fields[0].value) && ObjectOnlyFields(fields[1..]))
  }

  /** Without arrays nothing can move. */
  lemma {:induction false} ObjectsHaveNothingToMove(j: Json, prefix: string, used: set<string>)
    requires ObjectOnly(j)
    ensures NoItemMoves(j, prefix, used)
    decreases j, 1
  {
    match j
    case Scalar(_) =>
    case Obj(fields) => FieldsHaveNothingToMove(fields, prefix, used);
  }

  lemma {:induction false} FieldsHaveNothingToMove(fields: seq<Field>, prefix: string, used: set<string>)
    requires ObjectOnlyFields(fields)
    ensures NoItemMovesUnder(fields, prefix, used)
    decreases fields, 0
  {
    if fields != [] {
      ObjectsHaveNothingToMove(fields[0].value, Child(prefix, fields[0].name), used);
      FieldsHaveNothingToMove(fields[1..], prefix, used);
    }
  }

  // ---------------------------------------------------------------------------------------------
  // Tidiness, and pruning twice.
  // ---------------------------------------------------------------------------------------------

  /** No object or array of the document is empty. */
  predicate Tidy(j: Json)
    decreases j, 1
  {
    match j
    case Scalar(_) => true
    case Arr(items) => items != [] && TidyItems(items)
    case Obj(fields) => fields != [] && TidyFields(fields)
  }

  predicate TidyItems(items: seq<Json>)
    decreases items, 0
  {
    items == [] || (Tidy(items[0]) && TidyItems(items[1..]))
  }

  predicate TidyFields(fields: seq<Field>)
    decreases fields, 0
  {
    fields == [] || (Tidy(fields[0].value) && TidyFields(fields[1..]))
  }

  /** Every scalar stands at a used path. */
  predicate AllUsed(j: Json, prefix: string, used: set<string>)
    decreases j, 1
  {
    match j
    case Scalar(_) => prefix in used
    case Arr(items) => AllItemsUsed(items, 0, prefix, used)
    case Obj(fields) => AllFieldsUsed(fields, prefix, used)
  }

  predicate AllItemsUsed(items: seq<Json>, index: nat, prefix: string, used: set<string>)
    decreases items, 0
  {
    items == [] ||
    (AllUsed(items[0], Child(prefix, Decimal(index)), used) && AllItemsUsed(items[1..], index + 1, prefix, used))
  }

  predicate AllFieldsUsed(fields: seq<Field>, prefix: string, used: set<string>)
    decreases fields, 0
  {
    fields == [] ||
    (AllUsed(fields[0].value, Child(prefix, fields[0].name), used) && AllFieldsUsed(fields[1..], prefix, used))
  }

  lemma {:induction false} PrunedIsTidy(j: Json, prefix: string, used: set<string>)
    ensures Prune(j, prefix, used).Some? ==> Tidy(Prune(j, prefix, used).value)
    decreases j, 1
  {
    match j
    case Scalar(_) =>
    case Arr(items) => PrunedItemsAreTidy(items, 0, prefix, used);
    case Obj(fields) => PrunedFieldsAreTidy(fields, prefix, used);
  }

  lemma {:induction false} PrunedItemsAreTidy(items: seq<Json>, index: nat, prefix: string, used: set<string>)
    ensures TidyItems(PruneItems(items, index, prefix, used))
    decreases items, 0
  {
    if items != [] {
      PrunedIsTidy(items[0], Child(prefix, Decimal(index)), used);
      PrunedItemsAreTidy(items[1..], index + 1, prefix, used);
    }
  }

  lemma {:induction false} PrunedFieldsAreTidy(fields: seq<Field>, prefix: string, used: set<string>)
    ensures TidyFields(PruneFields(fields, prefix, used))
    decreases fields, 0
  {
    if fields != [] {
      PrunedIsTidy(fields[0].value, Child(prefix, fields[0].name), used);
      PrunedFieldsAreTidy(fields[1..], prefix, used);
    }
  }

  /** Pruning changes nothing exactly in a tidy document all of whose scalars are used. */
  lemma {:induction false} UnchangedExactlyIfUsed(j: Json, prefix: string, used: set<string>)
    ensures Prune(j, prefix, used) == Some(j) <==> Tidy(j) && AllUsed(j, prefix, used)
    decreases j, 1
  {
    match j
    case Scalar(_) =>
    case Arr(items) => ItemsUnchangedExactlyIfUsed(items, 0, prefix, used);
    case Obj(fields) => FieldsUnchangedExactlyIfUsed(fields, prefix, used);
  }

  lemma {:induction false} ItemsUnchangedExactlyIfUsed(items: seq<Json>, index: nat, prefix: string, used: set<string>)
    ensures |PruneItems(items, index, prefix, used)| <= |items|
    ensures PruneItems(items, index, prefix, used) == items
            <==> TidyItems(items) && AllItemsUsed(items, index, prefix, used)
    decreases items, 0
  {
    if items != [] {
      UnchangedExactlyIfUsed(items[0], Child(prefix, Decimal(index)), used);
      ItemsUnchangedExactlyIfUsed(items[1..], index + 1, prefix, used);
      assert items == [items[0]] + items[1..];
    }
  }

  lemma {:induction false} FieldsUnchangedExactlyIfUsed(fields: seq<Field>, prefix: string, used: set<string>)
    ensures |PruneFields(fields, prefix, used)| <= |fields|
    ensures PruneFields(fields, prefix, used) == fields <==> TidyFields(fields) && AllFieldsUsed(fields, prefix, used)
    decreases fields, 0
  {
    if fields != [] {
      UnchangedExactlyIfUsed(fields[0].value, Child(prefix, fields[0].name), used);
      FieldsUnchangedExactlyIfUsed(fields[1..], prefix, used);
      assert fields == [fields[0]] + fields[1..];
    }
  }

  lemma {:induction false} WhatStaysIsUsed(j: Json, prefix: string, used: set<string>)
    requires "" !in used && NoItemMoves(j, prefix, used) && Prune(j, prefix, used).Some?
    ensures AllUsed(Prune(j, prefix, used).value, prefix, used)
    decreases j, 1
  {
    match j
    case Scalar(_) =>
    case Arr(items) => ItemsThatStayAreUsed(items, 0, prefix, used);
    case Obj(fields) => FieldsThatStayAreUsed(fields, prefix, used);
  }

  lemma {:induction false} ItemsThatStayAreUsed(items: seq<Json>, index: nat, prefix: string, used: set<string>)
    requires "" !in used && NoItemMovesIn(items, index, prefix, used)
    ensures AllItemsUsed(PruneItems(items, index, prefix, used), index, prefix, used)
    decreases items, 0
  {
    if items != [] {
      var path, rest := Child(prefix, Decimal(index)), PruneItems(items[1..], index + 1, prefix, used);
      PruneKeepsValues(items[0], path, used, path);
      match Prune(items[0], path, used)
      case None =>
        PruneItemsKeepsValues(items[1..], index + 1, prefix, used, index, prefix);
        assert rest == [];
      case Some(kept) =>
        WhatStaysIsUsed(items[0], path, used);
        ItemsThatStayAreUsed(items[1..], index + 1, prefix, used);
        assert ([kept] + rest)[1..] == rest;
    }
  }

  lemma {:induction false} FieldsThatStayAreUsed(fields: seq<Field>, prefix: string, used: set<string>)
    requires "" !in used && NoItemMovesUnder(fields, prefix, used)
    ensures AllFieldsUsed(PruneFields(fields, prefix, used), prefix, used)
    decreases fields, 0
  {
    if fields != [] {
      var path, rest := Child(prefix, fields[0].name), PruneFields(fields[1..], prefix, used);
      FieldsThatStayAreUsed(fields[1..], prefix, used);
      match Prune(fields[0].value, path, used)
      case None =>
      case Some(kept) =>
        WhatStaysIsUsed(fields[0].value, path, used);
        assert ([Field(fields[0].name, kept)] + rest)[1..] == rest;
    }
  }

  /**
   * Read from `q`, where the pruned document stands, each used scalar of the original is at a used path:
   * an item behind `moved` items with a used leaf is read at that position.
   */
  predicate Stays(j: Json, prefix: string, q: string, used: set<string>)
    decreases j, 1
  {
    match j
    case Scalar(_) => prefix in used ==> q in used
    case Arr(items) => ItemsStay(items, 0, prefix, 0, q, used)
    case Obj(fields) => FieldsStay(fields, prefix, q, used)
  }

  predicate ItemsStay(items: seq<Json>, index: nat, prefix: string, moved: nat, q: string, used: set<string>)
    decreases items, 0
  {
    items == [] ||
    var path := Child(prefix, Decimal(index));
    if Keep(Leaves(items[0], path), used) == [] then ItemsStay(items[1..], index + 1, prefix, moved, q, used)
    else
      && Stays(items[0], path, Child(q, Decimal(moved)), used)
      && ItemsStay(items[1..], index + 1, prefix, moved + 1, q, used)
  }

  predicate FieldsStay(fields: seq<Field>, prefix: string, q: string, used: set<string>)
    decreases fields, 0
  {
    fields == [] ||
    (&& Stays(fields[0].value, Child(prefix, fields[0].name), Child(q, fields[0].name), used)
     && FieldsStay(fields[1..], prefix, q, used))
  }

  lemma {:induction false} UsedExactlyIfStays(j: Json, prefix: string, q: string, used: set<string>)
    requires "" !in used && (q == "" <==> prefix == "")
    ensures match Prune(j, prefix, used)
            case None => Stays(j, prefix, q, used)
            case Some(kept) => AllUsed(kept, q, used) <==> Stays(j, prefix, q, used)
    decreases j, 1
  {
    match j
    case Scalar(_) =>
    case Arr(items) => ItemsUsedExactlyIfTheyStay(items, 0, prefix, 0, q, used);
    case Obj(fields) => FieldsUsedExactlyIfTheyStay(fields, prefix, q, used);
  }

  lemma {:induction false} ItemsUsedExactlyIfTheyStay(
      items: seq<Json>, index: nat, prefix: string, moved: nat, q: string, used: set<string>)
    requires "" !in used && (q == "" <==> prefix == "")
    ensures AllItemsUsed(PruneItems(items, index, prefix, used), moved, q, used)
            <==> ItemsStay(items, index, prefix, moved, q, used)
    decreases items, 0
  {
    if items != [] {
      var path, at := Child(prefix, Decimal(index)), Child(q, Decimal(moved));
      var rest := PruneItems(items[1..], index + 1, prefix, used);
      DecimalIsDigits(index);
      DecimalIsDigits(moved);
      PruneKeepsValues(items[0], path, used, path);
      match Prune(items[0], path, used)
      case None =>
        ItemsUsedExactlyIfTheyStay(items[1..], index + 1, prefix, moved, q, used);
      case Some(kept) =>
        UsedExactlyIfStays(items[0], path, at, used);
        ItemsUsedExactlyIfTheyStay(items[1..], index + 1, prefix, moved + 1, q, used);
        assert ([kept] + rest)[1..] == rest;
    }
  }

  lemma {:induction false} FieldsUsedExactlyIfTheyStay(fields: seq<Field>, prefix: string, q: string, used: set<string>)
    requires "" !in used && (q == "" <==> prefix == "")
    ensures AllFieldsUsed(PruneFields(fields, prefix, used), q, used) <==> FieldsStay(fields, prefix, q, used)
    decreases fields, 0
  {
    if fields != [] {
      var name := fields[0].name;
      var path, rest := Child(prefix, name), PruneFields(fields[1..], prefix, used);
      UsedExactlyIfStays(fields[0].value, path, Child(q, name), used);
      FieldsUsedExactlyIfTheyStay(fields[1..], prefix, q, used);
      match Prune(fields[0].value, path, used)
      case None =>
      case Some(kept) =>
        assert ([Field(name, kept)] + rest)[1..] == rest;
    }
  }

  /**
   * A pruned document has no empty object or array anywhere.  Pruning it again changes nothing exactly
   * if each used scalar moves to a used path, which holds if no item moves.
   */
  lemma PruneIsTidyAndStable(j: Json, prefix: string, used: set<string>)
    requires Prune(j, prefix, used).Some?
    ensures var kept := Prune(j, prefix, used).value;
            && Tidy(kept)
            && (Prune(kept, prefix, used) == Some(kept) <==> AllUsed(kept, prefix, used))
            && ("" !in used ==> (Prune(kept, prefix, used) == Some(kept) <==> Stays(j, prefix, prefix, used)))
            && ("" !in used && NoItemMoves(j, prefix, used) ==> Stays(j, prefix, prefix, used))
  {
    PrunedIsTidy(j, prefix, used);
    UnchangedExactlyIfUsed(Prune(j, prefix, used).value, prefix, used);
    if "" !in used {
      UsedExactlyIfStays(j, prefix, prefix, used);
      if NoItemMoves(j, prefix, used) {
        WhatStaysIsUsed(j, prefix, used);
      }
    }
  }
}
