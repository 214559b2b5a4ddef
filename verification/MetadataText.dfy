/** `_metadata_text`: metadata flattened into one searchable string. */
module Metadata {
  import opened Events

  /** The values directly inside a list or dict, in iteration order. */
  function Children(v: Json): (r: seq<Json>)
    ensures forall i :: 0 <= i < |r| ==> r[i] < v
  {
    match v
    case List(items) => items
    case Dict(fields) => Values(fields)
    case _ => []
  }

  function Values(fields: seq<(string, Json)>): (r: seq<Json>)
    ensures |r| == |fields|
    ensures forall i :: 0 <= i < |r| ==> r[i] == fields[i].1
  {
    if fields == [] then [] else [fields[0].1] + Values(fields[1..])
  }

  predicate IsContainer(v: Json) {
    v.List? || v.Dict?
  }

  // ---------------------------------------------------------------------------
  // Reference: the leaves, listed recursively
  // ---------------------------------------------------------------------------

  function Leaves(v: Json): seq<string>
    decreases v, 0
  {
    if v.Scalar? then [v.text] else LeavesFrom(v, 0)
  }

  /** The leaves of the children of `v` from position `i` on. */
  function LeavesFrom(v: Json, i: nat): seq<string>
    requires i <= |Children(v)|
    decreases v, 0, |Children(v)| - i
  {
    if i == |Children(v)| then [] else Leaves(Children(v)[i]) + LeavesFrom(v, i + 1)
  }

  function Join(parts: seq<string>): string {
    if parts == [] then ""
    else if |parts| == 1 then parts[0]
    else parts[0] + " " + Join(parts[1..])
  }

  function Text(metadata: Json): string {
    Join(Leaves(metadata))
  }

  /** The parts in order, with one space between neighbours and nothing around them. */
  lemma {:induction false} JoinSpec(a: seq<string>, b: seq<string>)
    ensures Join([]) == ""
    ensures |a| == 1 ==> Join(a) == a[0]
    ensures a != [] && b != [] ==> Join(a + b) == Join(a) + " " + Join(b)
    decreases |a|
  {
    if |a| > 1 && b != [] {
      JoinSpec(a[1..], b);
      assert (a + b)[1..] == a[1..] + b;
      assert Join(a + b) == a[0] + " " + (Join(a[1..]) + " " + Join(b));
    } else if |a| == 1 && b != [] {
      assert (a + b)[1..] == b;
    }
  }

  // ---------------------------------------------------------------------------
  // The in-place walk
  // ---------------------------------------------------------------------------

  class TextBuilder {
    var parts: seq<string>

    constructor ()
      ensures parts == []
    {
      parts := [];
    }

    /** `_walk`: recurse into containers, append every scalar that is not None. */
    method Walk(value: Json)
      modifies this
      ensures parts == old(parts) + Leaves(value)
      decreases value
    {
      if IsContainer(value) {
        var items := Children(value);
        ghost var before := parts;
        assert parts + LeavesFrom(value, 0) == before + Leaves(value);
        for i := 0 to |items|
          invariant parts + LeavesFrom(value, i) == before + Leaves(value)
        {
          label L:
          Walk(items[i]);
          assert parts + LeavesFrom(value, i + 1)
              == old@L(parts) + (Leaves(items[i]) + LeavesFrom(value, i + 1));
        }
      } else if value != Null {
        parts := parts + [value.text];
      }
    }
  }

  method MetadataText(metadata: Json) returns (text: string)
    ensures text == Text(metadata)
  {
    var builder := new TextBuilder();
    builder.Walk(metadata);
    assert builder.parts == Leaves(metadata);
    text := Join(builder.parts);
  }

  // ---------------------------------------------------------------------------
  // What the listing means: the scalars reachable by a path, in document order
  // ---------------------------------------------------------------------------

  type Path = seq<nat>

  /** The value found by following positions in lists and dicts. */
  function At(v: Json, path: Path): Option<Json>
    decreases |path|
  {
    if path == [] then Some(v)
    else match v
      case List(items) => if path[0] < |items| then At(items[path[0]], path[1..]) else None
      case Dict(fields) => if path[0] < |fields| then At(fields[path[0]].1, path[1..]) else None
      case _ => None
  }

  /** Document order: positions compared left to right. */
  predicate Before(p: Path, q: Path)
    decreases |p|
  {
    p != [] && q != [] && (p[0] < q[0] || (p[0] == q[0] && Before(p[1..], q[1..])))
  }

  /** Every path leads to a scalar below position `from`, with the text listed for it. */
  ghost predicate Leads(v: Json, from: nat, paths: seq<Path>, texts: seq<string>) {
    |paths| == |texts| &&
    forall k :: 0 <= k < |paths| ==>
      At(v, paths[k]) == Some(Scalar(texts[k])) && (paths[k] != [] ==> from <= paths[k][0])
  }

  /** No scalar below position `from` is missed. */
  ghost predicate Covers(v: Json, from: nat, paths: seq<Path>) {
    forall p: Path, t: string :: At(v, p) == Some(Scalar(t)) && (p != [] ==> from <= p[0]) ==> p in paths
  }

  ghost predicate Ordered(paths: seq<Path>) {
    forall k, l :: 0 <= k < l < |paths| ==> Before(paths[k], paths[l])
  }

  function Under(i: nat, paths: seq<Path>): (r: seq<Path>)
    ensures |r| == |paths|
    ensures forall k :: 0 <= k < |r| ==> r[k] == [i] + paths[k]
  {
    seq(|paths|, k requires 0 <= k < |paths| => [i] + paths[k])
  }

  function LeafPaths(v: Json): seq<Path>
    decreases v, 0
  {
    if v.Scalar? then [[]] else LeafPathsFrom(v, 0)
  }

  function LeafPathsFrom(v: Json, i: nat): seq<Path>
    requires i <= |Children(v)|
    decreases v, 0, |Children(v)| - i
  {
    if i == |Children(v)| then [] else Under(i, LeafPaths(Children(v)[i])) + LeafPathsFrom(v, i + 1)
  }

  /**
   * The flattened text lists every non-None leaf exactly once per position, in document order:
   * the path list has no repetition and misses no scalar.
   */
  lemma {:induction false} LeavesAreTheScalars(v: Json)
    ensures Leads(v, 0, LeafPaths(v), Leaves(v))
    ensures Covers(v, 0, LeafPaths(v))
    ensures Ordered(LeafPaths(v))
    decreases v, 0
  {
    if v.Scalar? {
      forall p: Path, t: string | At(v, p) == Some(Scalar(t)) ensures p in LeafPaths(v) {
        assert p == [];
      }
    } else {
      ChildrenLeaves(v, 0);
    }
  }

  lemma {:induction false} ChildrenLeaves(v: Json, i: nat)
    requires i <= |Children(v)| && !v.Scalar?
    ensures Leads(v, i, LeafPathsFrom(v, i), LeavesFrom(v, i))
    ensures Covers(v, i, LeafPathsFrom(v, i))
    ensures Ordered(LeafPathsFrom(v, i))
    decreases v, 0, |Children(v)| - i
  {
    if i < |Children(v)| {
      var child := Children(v)[i];
      LeavesAreTheScalars(child);
      ChildrenLeaves(v, i + 1);
      OneMoreLeads(v, i, LeafPaths(child), Leaves(child), LeafPathsFrom(v, i + 1), LeavesFrom(v, i + 1));
      OneMoreCovers(v, i, LeafPaths(child), LeafPathsFrom(v, i + 1));
      OneMoreOrdered(v, i, LeafPaths(child), LeafPathsFrom(v, i + 1), LeavesFrom(v, i + 1));
    }
  }

  lemma OneMoreLeads(v: Json, i: nat, paths: seq<Path>, texts: seq<string>, paths': seq<Path>, texts': seq<string>)
    requires i < |Children(v)|
    requires Leads(Children(v)[i], 0, paths, texts) && Leads(v, i + 1, paths', texts')
    ensures Leads(v, i, Under(i, paths) + paths', texts + texts')
  {
    var here := Under(i, paths);
    forall k | 0 <= k < |here| ensures At(v, here[k]) == Some(Scalar(texts[k])) && here[k][0] == i {
      assert here[k][1..] == paths[k];
    }
  }

  lemma OneMoreCovers(v: Json, i: nat, paths: seq<Path>, paths': seq<Path>)
    requires i < |Children(v)| && !v.Scalar?
    requires Covers(Children(v)[i], 0, paths) && Covers(v, i + 1, paths')
    ensures Covers(v, i, Under(i, paths) + paths')
  {
    var here := Under(i, paths);
    forall p: Path, t: string | At(v, p) == Some(Scalar(t)) && (p != [] ==> i <= p[0])
      ensures p in here + paths'
    {
      if p[0] == i {
        assert At(Children(v)[i], p[1..]) == Some(Scalar(t));
        var k :| 0 <= k < |paths| && paths[k] == p[1..];
        assert here[k] == p;
      } else {
        assert p in paths';
      }
    }
  }

  lemma OneMoreOrdered(v: Json, i: nat, paths: seq<Path>, paths': seq<Path>, texts': seq<string>)
    requires !v.Scalar?
    requires Ordered(paths) && Ordered(paths') && Leads(v, i + 1, paths', texts')
    ensures Ordered(Under(i, paths) + paths')
  {
    var here := Under(i, paths);
    var all := here + paths';
    forall k, l | 0 <= k < l < |all| ensures Before(all[k], all[l]) {
      if l < |here| {
        assert here[k][1..] == paths[k] && here[l][1..] == paths[l];
        assert Before(here[k], here[l]);
      } else if k < |here| {
        assert At(v, paths'[l - |here|]) == Some(Scalar(texts'[l - |here|]));
        assert here[k][0] == i;
      } else {
        assert Before(paths'[k - |here|], paths'[l - |here|]);
      }
    }
  }

  lemma {:induction false} BeforeIsStrict(p: Path)
    ensures !Before(p, p)
    decreases |p|
  {
    if p != [] {
      BeforeIsStrict(p[1..]);
    }
  }

  /** No position contributes twice. */
  lemma {:induction false} LeafPathsDistinct(v: Json, k: nat, l: nat)
    requires k < l < |LeafPaths(v)|
    ensures LeafPaths(v)[k] != LeafPaths(v)[l]
  {
    LeavesAreTheScalars(v);
    BeforeIsStrict(LeafPaths(v)[k]);
  }
}
