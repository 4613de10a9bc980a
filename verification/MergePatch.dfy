// JSON merge patch, section 2 of RFC 7386, over arbitrary JSON values.

module MergePatch {
  import opened Wrappers

  datatype Json =
    | JNull
    | JBool(flag: bool)
    | JNum(n: int)
    | JStr(s: string)
    | JArr(items: seq<Json>)
    | JObj(fields: map<string, Json>)

  function FieldsOf(t: Json): map<string, Json>
  {
    if t.JObj? then t.fields else map[]
  }

  // A member that is absent behaves like one that is not an object: JNull stands for it.
  function Member(fields: map<string, Json>, k: string): Json
  {
    if k in fields then fields[k] else JNull
  }

  function Apply(target: Json, patch: Json): Json
    decreases patch
  {
    if !patch.JObj? then patch
    else
      var base := FieldsOf(target);
      JObj(map k | k in base.Keys + patch.fields.Keys && !(k in patch.fields && patch.fields[k] == JNull) ::
             if k in patch.fields then Apply(Member(base, k), patch.fields[k]) else base[k])
  }

  // The value at a path of object members.
  function Lookup(doc: Json, path: seq<string>): Option<Json>
    decreases |path|
  {
    if path == [] then Some(doc)
    else if doc.JObj? && path[0] in doc.fields then Lookup(doc.fields[path[0]], path[1..])
    else None
  }

  // Applying a patch twice equals applying it once.
  lemma {:induction false} Idempotent(target: Json, patch: Json)
    ensures Apply(Apply(target, patch), patch) == Apply(target, patch)
    decreases patch
  {
    if patch.JObj? {
      var once := Apply(target, patch);
      var twice := Apply(once, patch);
      var base := FieldsOf(target);
      assert twice.fields.Keys == once.fields.Keys;
      forall k | k in once.fields ensures twice.fields[k] == once.fields[k] {
        if k in patch.fields {
          Idempotent(Member(base, k), patch.fields[k]);
        }
      }
    }
  }

  // The patch is silent about a path: on the way down it stops being an object
  // that mentions the next member.
  predicate Silent(patch: Json, path: seq<string>)
    decreases |path|
  {
    && path != [] && patch.JObj?
    && (path[0] in patch.fields ==> Silent(patch.fields[path[0]], path[1..]))
  }

  // Frame: whatever the patch is silent about stays exactly as it was.
  lemma {:induction false} Frame(target: Json, patch: Json, path: seq<string>)
    requires Silent(patch, path)
    ensures Lookup(Apply(target, patch), path) == Lookup(target, path)
    decreases |path|
  {
    var base := FieldsOf(target);
    if path[0] in patch.fields {
      Frame(Member(base, path[0]), patch.fields[path[0]], path[1..]);
      if path[0] !in base {
        assert Lookup(JNull, path[1..]) == None;
      }
    }
  }

  // A null in the patch removes the member.
  lemma {:induction false} NullRemoves(target: Json, patch: Json, path: seq<string>)
    requires path != [] && Lookup(patch, path) == Some(JNull)
    ensures Lookup(Apply(target, patch), path) == None
    decreases |path|
  {
    if |path| > 1 {
      NullRemoves(Member(FieldsOf(target), path[0]), patch.fields[path[0]], path[1..]);
    } else {
      assert path[1..] == [];
    }
  }

  // Effect: a scalar or array of the patch arrives at its path.
  lemma {:induction false} Arrives(target: Json, patch: Json, path: seq<string>)
    requires Lookup(patch, path).Some?
    requires Lookup(patch, path).value != JNull && !Lookup(patch, path).value.JObj?
    ensures Lookup(Apply(target, patch), path) == Lookup(patch, path)
    decreases |path|
  {
    if path != [] {
      Arrives(Member(FieldsOf(target), path[0]), patch.fields[path[0]], path[1..]);
    }
  }
}
