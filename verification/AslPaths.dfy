/** The JSON paths of the state machine: the accepted syntax, reading a path, and writing a
    state's result at its ResultPath. */
module AslPaths {
  import opened Json
  import opened Splits

  // ---------------------------------------------------------------- syntax

  predicate IsLetter(c: char) {
    'a' <= c <= 'z' || 'A' <= c <= 'Z'
  }

  predicate IsDigit(c: char) {
    '0' <= c <= '9'
  }

  predicate IsName(part: string) {
    && part != ""
    && (IsLetter(part[0]) || part[0] == '_')
    && forall c <- part :: IsLetter(c) || IsDigit(c) || c == '_'
  }

  /** One `$` or two, then dotted names. */
  predicate IsPath(text: string) {
    && text != "" && text[0] == '$'
    && var rest := if |text| > 1 && text[1] == '$' then text[2..] else text[1..];
       rest == "" || (rest[0] == '.' && forall part <- Split(rest[1..], '.') :: IsName(part))
  }

  /** A path a state may write to: it cannot start in the context object. */
  predicate IsReferencePath(text: string) {
    IsPath(text) && !("$$" <= text)
  }

  // ---------------------------------------------------------------- reading

  function Walk(value: Json, parts: seq<string>): Option<Json> {
    if parts == [] then Some(value)
    else if value.Obj? && parts[0] in value.fields then Walk(value.fields[parts[0]], parts[1..])
    else None
  }

  function From(text: string, n: nat): string {
    if n <= |text| then text[n..] else ""
  }

  /** None stands for the source's missing marker.  The path `$$` reads the key "" of the data:
      only `$$.` selects the context object. */
  function ReadPath(path: string, data: Json, context: Json): Option<Json> {
    if path == "$" then Some(data)
    else if "$$." <= path then Walk(context, Split(From(path, 3), '.'))
    else Walk(data, Split(From(path, 2), '.'))
  }

  lemma {:induction false} WalkAppend(value: Json, p: seq<string>, q: seq<string>)
    ensures Walk(value, p + q) ==
            match Walk(value, p) case Some(v) => Walk(v, q) case None => None
  {
    if p == [] {
      assert p + q == q;
    } else {
      assert (p + q)[1..] == p[1..] + q;
      if value.Obj? && p[0] in value.fields {
        WalkAppend(value.fields[p[0]], p[1..], q);
      }
    }
  }

  // ---------------------------------------------------------------- writing

  datatype PathField = Absent | NullPath | At(path: string)

  datatype StatesError = StatesError(name: string, cause: string)

  const MATCH_FAILURE := "States.ResultPathMatchFailure"

  /** The object after the write; missing objects on the way are created, and a value that is
      there but is not an object stops the write. */
  function WriteAt(fields: map<string, Json>, parts: seq<string>, value: Json): Result<map<string, Json>, StatesError>
    requires parts != []
    decreases |parts|
  {
    if |parts| == 1 then Ok(fields[parts[0] := value])
    else
      var child := if parts[0] in fields then fields[parts[0]] else Obj(map[]);
      if !child.Obj? then Err(StatesError(MATCH_FAILURE, parts[0] + " is not an object"))
      else
        match WriteAt(child.fields, parts[1..], value)
        case Ok(inner) => Ok(fields[parts[0] := Obj(inner)])
        case Err(e) => Err(e)
  }

  /** `field` is the state's ResultPath; an absent one is `$`. */
  function ApplyResultPath(raw: Json, result: Json, field: PathField): Result<Json, StatesError> {
    if field.NullPath? then Ok(raw)
    else if field.Absent? || field.path == "$" then Ok(result)
    else if !raw.Obj? then Err(StatesError(MATCH_FAILURE, "state input is not an object"))
    else
      match WriteAt(raw.fields, Split(From(field.path, 2), '.'), result)
      case Ok(fields) => Ok(Obj(fields))
      case Err(e) => Err(e)
  }

  /** The same write the way the source performs it: a cursor walks down the copied input,
      creating each missing object with `setdefault`, and the last step stores the result.
      `done` is the part of the path the cursor has followed. */
  method WriteWithCursor(raw: map<string, Json>, parts: seq<string>, result: Json)
    returns (written: Result<map<string, Json>, StatesError>)
    requires parts != []
    ensures written == WriteAt(raw, parts, result)
  {
    var target := raw;
    var cursor := raw;
    var i := 0;
    assert parts[0..] == parts;
    while i < |parts| - 1
      invariant 0 <= i < |parts|
      invariant Walk(Obj(target), parts[..i]) == Some(Obj(cursor))
      invariant WriteAt(target, parts, result) == WriteAt(raw, parts, result)
      invariant WriteAt(raw, parts, result).Ok? <==> WriteAt(cursor, parts[i..], result).Ok?
      invariant WriteAt(cursor, parts[i..], result).Err? ==>
                  WriteAt(raw, parts, result) == WriteAt(cursor, parts[i..], result)
    {
      var part := parts[i];
      ghost var before, at := target, cursor;
      if part !in cursor {
        target, cursor := SetDefault(target, parts[..i], part), cursor[part := Obj(map[])];
        SetDefaultKeepsWrite(before, parts, i, result);
      }
      assert parts[i..][1..] == parts[i + 1..];
      assert parts[..i + 1] == parts[..i] + [part];
      WalkAppend(Obj(target), parts[..i], [part]);
      var child := cursor[part];
      if !child.Obj? {
        return Err(StatesError(MATCH_FAILURE, part + " is not an object"));
      }
      cursor := child.fields;
      i := i + 1;
    }
    assert parts[i..] == [parts[i]];
    assert parts == parts[..i] + [parts[i]];
    StoreIsWrite(target, parts[..i], parts[i], result);
    written := Ok(Store(target, parts[..i], parts[i], result));
  }

  /** Assigning `key` in the object that `at` leads to, all of whose steps exist. */
  function Store(target: map<string, Json>, at: seq<string>, key: string, value: Json): map<string, Json>
    requires var there := Walk(Obj(target), at); there.Some? && there.value.Obj?
    decreases |at|
  {
    if at == [] then target[key := value]
    else
      assert Walk(target[at[0]], at[1..]) == Walk(Obj(target), at);
      target[at[0] := Obj(Store(target[at[0]].fields, at[1..], key, value))]
  }

  function SetDefault(target: map<string, Json>, at: seq<string>, key: string): map<string, Json>
    requires var there := Walk(Obj(target), at); there.Some? && there.value.Obj?
  {
    Store(target, at, key, Obj(map[]))
  }

  lemma {:induction false} StoreIsWrite(target: map<string, Json>, at: seq<string>, key: string, value: Json)
    requires var there := Walk(Obj(target), at); there.Some? && there.value.Obj?
    ensures WriteAt(target, at + [key], value) == Ok(Store(target, at, key, value))
    ensures Walk(Obj(Store(target, at, key, value)), at) == Some(Obj(Walk(Obj(target), at).value.fields[key := value]))
    decreases |at|
  {
    if at != [] {
      assert (at + [key])[1..] == at[1..] + [key];
      StoreIsWrite(target[at[0]].fields, at[1..], key, value);
    }
  }

  lemma {:induction false} SetDefaultKeepsWrite(target: map<string, Json>, parts: seq<string>, i: nat, value: Json)
    requires i < |parts| - 1
    requires var there := Walk(Obj(target), parts[..i]);
      there.Some? && there.value.Obj? && parts[i] !in there.value.fields
    ensures var there := Walk(Obj(target), parts[..i]).value.fields;
      var set' := SetDefault(target, parts[..i], parts[i]);
      && WriteAt(set', parts, value) == WriteAt(target, parts, value)
      && Walk(Obj(set'), parts[..i]) == Some(Obj(there[parts[i] := Obj(map[])]))
      && WriteAt(there[parts[i] := Obj(map[])], parts[i..], value) == WriteAt(there, parts[i..], value)
    decreases |parts|
  {
    StoreIsWrite(target, parts[..i], parts[i], Obj(map[]));
    var there := Walk(Obj(target), parts[..i]).value.fields;
    if i == 0 {
      assert parts[0..] == parts;
      match WriteAt(map[], parts[1..], value)
      case Err(_) =>
      case Ok(inner) =>
        assert target[parts[0] := Obj(map[])][parts[0] := Obj(inner)] == target[parts[0] := Obj(inner)];
    } else {
      assert parts[..i][1..] == parts[1..][..i - 1];
      assert parts[i..] == parts[1..][i - 1..];
      SetDefaultKeepsWrite(target[parts[0]].fields, parts[1..], i - 1, value);
      match WriteAt(target[parts[0]].fields, parts[1..], value)
      case Err(_) =>
      case Ok(inner) =>
        var set' := SetDefault(target, parts[..i], parts[i]);
        assert set'[parts[0] := Obj(inner)] == target[parts[0] := Obj(inner)];
    }
  }

  // ---------------------------------------------------------------- laws of the write

  ghost predicate Diverge(p: seq<string>, q: seq<string>) {
    !(p <= q) && !(q <= p)
  }

  /** A write succeeds exactly when nothing on the way down is there without being an object. */
  lemma {:induction false} WriteSucceedsIff(fields: map<string, Json>, parts: seq<string>, value: Json)
    requires parts != []
    ensures WriteAt(fields, parts, value).Ok? <==>
            forall k | 1 <= k < |parts| :: var there := Walk(Obj(fields), parts[..k]); there.None? || there.value.Obj?
    decreases |parts|
  {
    if |parts| > 1 {
      var child := if parts[0] in fields then fields[parts[0]] else Obj(map[]);
      assert parts[..1][1..] == [];
      assert Walk(Obj(fields), parts[..1]) == if parts[0] in fields then Some(child) else None;
      if child.Obj? {
        WriteSucceedsIff(child.fields, parts[1..], value);
        forall k | 2 <= k < |parts|
          ensures Walk(Obj(fields), parts[..k]) ==
                  if parts[0] in fields then Walk(child, parts[1..][..k - 1]) else None
          ensures parts[0] !in fields ==> Walk(child, parts[1..][..k - 1]).None?
        {
          assert parts[..k][1..] == parts[1..][..k - 1];
        }
        if forall k | 1 <= k < |parts| :: var there := Walk(Obj(fields), parts[..k]); there.None? || there.value.Obj? {
          forall k | 1 <= k < |parts[1..]|
            ensures var there := Walk(child, parts[1..][..k]); there.None? || there.value.Obj?
          {
            var there := Walk(Obj(fields), parts[..k + 1]);
            assert there.None? || there.value.Obj?;
          }
        } else {
          var k :| 1 <= k < |parts| && !(var there := Walk(Obj(fields), parts[..k]); there.None? || there.value.Obj?);
          assert k != 1;
          var there := Walk(child, parts[1..][..k - 1]);
          assert !(there.None? || there.value.Obj?);
        }
      } else {
        assert !(var there := Walk(Obj(fields), parts[..1]); there.None? || there.value.Obj?);
      }
    }
  }

  /** What is written is what is read, and nothing off the path moves. */
  lemma {:induction false} WriteThenWalk(fields: map<string, Json>, parts: seq<string>, value: Json, q: seq<string>)
    requires parts != [] && WriteAt(fields, parts, value).Ok?
    ensures Walk(Obj(WriteAt(fields, parts, value).value), parts) == Some(value)
    ensures Diverge(parts, q) ==> Walk(Obj(WriteAt(fields, parts, value).value), q) == Walk(Obj(fields), q)
    decreases |parts|
  {
    var child := if parts[0] in fields then fields[parts[0]] else Obj(map[]);
    if |parts| > 1 {
      var q' := if q != [] && q[0] == parts[0] then q[1..] else [];
      WriteThenWalk(child.fields, parts[1..], value, q');
      if Diverge(parts, q) && q[0] == parts[0] {
        assert parts == [parts[0]] + parts[1..] && q == [q[0]] + q[1..];
        assert Diverge(parts[1..], q[1..]);
      }
    }
  }

  lemma {:induction false} SecondWriteWins(fields: map<string, Json>, parts: seq<string>, first: Json, second: Json)
    requires parts != [] && WriteAt(fields, parts, first).Ok?
    ensures WriteAt(WriteAt(fields, parts, first).value, parts, second) == WriteAt(fields, parts, second)
    ensures WriteAt(fields, parts, second).Ok?
    decreases |parts|
  {
    if |parts| == 1 {
      assert fields[parts[0] := first][parts[0] := second] == fields[parts[0] := second];
    } else {
      var child := if parts[0] in fields then fields[parts[0]] else Obj(map[]);
      SecondWriteWins(child.fields, parts[1..], first, second);
      var a, b := WriteAt(child.fields, parts[1..], first).value, WriteAt(child.fields, parts[1..], second).value;
      assert fields[parts[0] := Obj(a)][parts[0] := Obj(b)] == fields[parts[0] := Obj(b)];
    }
  }

  /** Two writes to diverging paths that both succeed do not see each other: each succeeds after
      the other too, and the order leaves no trace. */
  lemma {:induction false} DivergingWritesCommute(
      fields: map<string, Json>, p: seq<string>, v: Json, q: seq<string>, w: Json)
    requires p != [] && q != [] && Diverge(p, q)
    requires WriteAt(fields, p, v).Ok? && WriteAt(fields, q, w).Ok?
    ensures WriteAt(WriteAt(fields, p, v).value, q, w).Ok?
    ensures WriteAt(WriteAt(fields, p, v).value, q, w) == WriteAt(WriteAt(fields, q, w).value, p, v)
    decreases |p|
  {
    if p[0] == q[0] {
      DivergingTails(p, q);
      var child := if p[0] in fields then fields[p[0]] else Obj(map[]);
      DivergingWritesCommute(child.fields, p[1..], v, q[1..], w);
      InnerWritesCommute(fields, p, v, q, w);
    } else {
      WritesUnderOtherKeysCommute(fields, p, v, q, w);
    }
  }

  lemma InnerWritesCommute(fields: map<string, Json>, p: seq<string>, v: Json, q: seq<string>, w: Json)
    requires |p| > 1 && |q| > 1 && p[0] == q[0]
    requires WriteAt(fields, p, v).Ok? && WriteAt(fields, q, w).Ok?
    requires var child := if p[0] in fields then fields[p[0]] else Obj(map[]);
      && child.Obj? && WriteAt(child.fields, p[1..], v).Ok? && WriteAt(child.fields, q[1..], w).Ok?
      && WriteAt(WriteAt(child.fields, p[1..], v).value, q[1..], w).Ok?
      && WriteAt(WriteAt(child.fields, p[1..], v).value, q[1..], w) ==
           WriteAt(WriteAt(child.fields, q[1..], w).value, p[1..], v)
    ensures WriteAt(WriteAt(fields, p, v).value, q, w).Ok?
    ensures WriteAt(WriteAt(fields, p, v).value, q, w) == WriteAt(WriteAt(fields, q, w).value, p, v)
  {
    WriteTwiceInside(fields, p, v, q, w);
    WriteTwiceInside(fields, q, w, p, v);
  }

  lemma DivergingTails(p: seq<string>, q: seq<string>)
    requires p != [] && q != [] && Diverge(p, q) && p[0] == q[0]
    ensures |p| > 1 && |q| > 1 && Diverge(p[1..], q[1..])
  {
    assert p == [p[0]] + p[1..] && q == [q[0]] + q[1..];
  }

  lemma WritesUnderOtherKeysCommute(
      fields: map<string, Json>, p: seq<string>, v: Json, q: seq<string>, w: Json)
    requires p != [] && q != [] && p[0] != q[0]
    requires WriteAt(fields, p, v).Ok? && WriteAt(fields, q, w).Ok?
    ensures WriteAt(WriteAt(fields, p, v).value, q, w).Ok?
    ensures WriteAt(WriteAt(fields, p, v).value, q, w) == WriteAt(WriteAt(fields, q, w).value, p, v)
  {
    HeadOfWrite(fields, p, v);
    HeadOfWrite(fields, q, w);
    var x, y := WriteAt(fields, p, v).value[p[0]], WriteAt(fields, q, w).value[q[0]];
    HeadOfWriteElsewhere(fields, p, v, q[0], y);
    HeadOfWriteElsewhere(fields, q, w, p[0], x);
    assert fields[p[0] := x][q[0] := y] == fields[q[0] := y][p[0] := x];
  }

  /** Two writes below the same key are two writes inside its object. */
  lemma WriteTwiceInside(fields: map<string, Json>, p: seq<string>, v: Json, q: seq<string>, w: Json)
    requires |p| > 1 && |q| > 1 && p[0] == q[0]
    requires WriteAt(fields, p, v).Ok?
    ensures var child := if p[0] in fields then fields[p[0]] else Obj(map[]);
      && child.Obj? && WriteAt(child.fields, p[1..], v).Ok?
      && WriteAt(WriteAt(fields, p, v).value, q, w) ==
         match WriteAt(WriteAt(child.fields, p[1..], v).value, q[1..], w)
         case Ok(both) => Ok(fields[p[0] := Obj(both)])
         case Err(e) => Err(e)
  {
    var child := if p[0] in fields then fields[p[0]] else Obj(map[]);
    var once := WriteAt(child.fields, p[1..], v).value;
    assert WriteAt(fields, p, v).value == fields[p[0] := Obj(once)];
    match WriteAt(once, q[1..], w)
    case Err(_) =>
    case Ok(both) => assert fields[p[0] := Obj(once)][p[0] := Obj(both)] == fields[p[0] := Obj(both)];
  }

  /** A write changes one key of the outermost object. */
  lemma HeadOfWrite(fields: map<string, Json>, parts: seq<string>, value: Json)
    requires parts != [] && WriteAt(fields, parts, value).Ok?
    ensures var out := WriteAt(fields, parts, value).value;
      parts[0] in out && out == fields[parts[0] := out[parts[0]]]
  {
  }

  /** That key's new value does not depend on the other keys. */
  lemma HeadOfWriteElsewhere(fields: map<string, Json>, parts: seq<string>, value: Json, other: string, x: Json)
    requires parts != [] && WriteAt(fields, parts, value).Ok? && other != parts[0]
    ensures var out := WriteAt(fields, parts, value).value;
      parts[0] in out && WriteAt(fields[other := x], parts, value) == Ok(fields[other := x][parts[0] := out[parts[0]]])
  {
  }

  /** The laws of ResultPath on accepted path texts, for every input, result and context: the
      written path reads back, a path whose names diverge reads as before, a later write
      overrides, and a null path passes the raw input on. */
  lemma ResultPathLaws(raw: Json, first: Json, result: Json, path: string, other: string, context: Json)
    requires IsReferencePath(path) && IsPath(other)
    ensures ApplyResultPath(raw, result, NullPath) == Ok(raw)
    ensures var written := ApplyResultPath(raw, result, At(path));
      written.Ok? ==>
        && ReadPath(path, written.value, context) == Some(result)
        && (path != "$" && !("$$." <= other) && other != "$"
             && Diverge(Split(other[2..], '.'), Split(path[2..], '.')) ==>
              ReadPath(other, written.value, context) == ReadPath(other, raw, context))
        && ("$$." <= other ==> ReadPath(other, written.value, context) == ReadPath(other, raw, context))
    ensures var written := ApplyResultPath(raw, first, At(path));
      written.Ok? ==> ApplyResultPath(written.value, result, At(path)) == ApplyResultPath(raw, result, At(path))
  {
    WrittenReadsBack(raw, result, path, other, context);
    LaterWriteOverrides(raw, first, result, path);
  }

  lemma WrittenReadsBack(raw: Json, result: Json, path: string, other: string, context: Json)
    requires IsReferencePath(path) && IsPath(other)
    ensures var written := ApplyResultPath(raw, result, At(path));
      written.Ok? ==>
        && ReadPath(path, written.value, context) == Some(result)
        && (path != "$" && !("$$." <= other) && other != "$"
             && Diverge(Split(other[2..], '.'), Split(path[2..], '.')) ==>
              ReadPath(other, written.value, context) == ReadPath(other, raw, context))
        && ("$$." <= other ==> ReadPath(other, written.value, context) == ReadPath(other, raw, context))
  {
    if path != "$" && raw.Obj? {
      var parts := Split(path[2..], '.');
      if WriteAt(raw.fields, parts, result).Ok? {
        WriteThenWalk(raw.fields, parts, result, if |other| >= 2 then Split(other[2..], '.') else []);
      }
    }
  }

  lemma LaterWriteOverrides(raw: Json, first: Json, result: Json, path: string)
    requires IsReferencePath(path)
    ensures var written := ApplyResultPath(raw, first, At(path));
      written.Ok? ==> ApplyResultPath(written.value, result, At(path)) == ApplyResultPath(raw, result, At(path))
  {
    if path != "$" && raw.Obj? {
      var parts := Split(path[2..], '.');
      if WriteAt(raw.fields, parts, first).Ok? {
        SecondWriteWins(raw.fields, parts, first, result);
      }
    }
  }
}
