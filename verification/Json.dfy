/** Documents as JSON trees, with the merge patch of section 2 of RFC 7396. */
module Json {
  import opened Collections

  datatype Json =
    | Null
    | Bool(b: bool)
    | Num(n: int)
    | Str(s: string)
    | Arr(items: seq<Json>)
    | Obj(fields: map<string, Json>)

  /** Bytes as the code tells them apart: only white space, not a document, or a document. */
  datatype Raw = Blank | Bad | Doc(doc: Json)

  type Path = p: seq<string> | |p| > 0 witness [""]

  predicate Scalar(j: Json) {
    j.Bool? || j.Num? || j.Str?
  }

  function Fields(j: Json): map<string, Json> {
    if j.Obj? then j.fields else map[]
  }

  /** MergePatch(target, patch) of section 2 of RFC 7396. */
  function Merge(target: Json, patch: Json): Json
    decreases patch
  {
    if !patch.Obj? then patch
    else
      var was := Fields(target);
      Obj(map k | k in was.Keys + patch.fields.Keys && !(k in patch.fields && patch.fields[k].Null?)
            :: if k in patch.fields
               then Merge(if k in was then was[k] else Null, patch.fields[k])
               else was[k])
  }

  /** The value at a path of member names, if every step names a member. */
  function Lookup(j: Json, p: Path): Option<Json>
    decreases |p|
  {
    if !j.Obj? || p[0] !in j.fields then None
    else if |p| == 1 then Some(j.fields[p[0]])
    else Lookup(j.fields[p[0]], p[1..])
  }

  /** The patch names the path, or gives one of its ancestors a value that is not an object. */
  predicate Touches(patch: Json, p: Path)
    decreases |p|
  {
    !patch.Obj? || (p[0] in patch.fields && (|p| == 1 || Touches(patch.fields[p[0]], p[1..])))
  }

  /** A scalar that a patch puts at a path is there afterwards, whatever the target was. */
  lemma {:induction false} MergeSetsLeaf(target: Json, patch: Json, p: Path)
    requires Lookup(patch, p).Some? && Scalar(Lookup(patch, p).value)
    ensures Lookup(Merge(target, patch), p) == Lookup(patch, p)
    decreases |p|
  {
    var was := Fields(target);
    var sub := if p[0] in was then was[p[0]] else Null;
    if |p| > 1 {
      MergeSetsLeaf(sub, patch.fields[p[0]], p[1..]);
    }
    assert Merge(target, patch).fields[p[0]] == Merge(sub, patch.fields[p[0]]);
  }

  /** A null in a patch removes what is at its path. */
  lemma {:induction false} MergeRemovesNull(target: Json, patch: Json, p: Path)
    requires Lookup(patch, p) == Some(Null)
    ensures Lookup(Merge(target, patch), p) == None
    decreases |p|
  {
    var was := Fields(target);
    var sub := if p[0] in was then was[p[0]] else Null;
    if |p| > 1 {
      MergeRemovesNull(sub, patch.fields[p[0]], p[1..]);
      assert Merge(target, patch).fields[p[0]] == Merge(sub, patch.fields[p[0]]);
    }
  }

  /** A patch that does not touch a path leaves what is found there, or its absence, as it was. */
  lemma {:induction false} MergeKeepsUntouched(target: Json, patch: Json, p: Path)
    requires !Touches(patch, p)
    ensures Lookup(Merge(target, patch), p) == Lookup(target, p)
    decreases |p|
  {
    var was, merged := Fields(target), Merge(target, patch);
    if p[0] in patch.fields {
      var sub := if p[0] in was then was[p[0]] else Null;
      MergeKeepsUntouched(sub, patch.fields[p[0]], p[1..]);
      assert merged.fields[p[0]] == Merge(sub, patch.fields[p[0]]);
    } else if p[0] in was {
      assert merged.fields[p[0]] == was[p[0]];
    }
  }
}
