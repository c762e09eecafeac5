/**
 * `flatStructure` of request.go: a walk over the fields of a struct that
 * carry a `name` tag, storing each scalar under a dotted key in the request's
 * query parameters. Go reflection is replaced by an explicit value tree.
 *
 * The walk is specified by the sequence of map writes it performs, in order
 * (`StructWrites` and its companions); the parameter map afterwards is the old
 * map with those writes applied (`Apply`). A walk that panics in Go is `None`.
 *
 * The flag `derefSlicePtr` selects between the code as written (false: a
 * non-nil pointer-to-slice field panics, because the slice branch takes the
 * length of the undereferenced field) and the corrected walk (true: the slice
 * behind the pointer is flattened like any other pointed-to value).
 */
module Flatten {
  import opened Common
  import opened Text
  import opened Request

  /** A reflected value, by the kinds the walk distinguishes. */
  datatype Value =
    | Str(s: string)
    | Bool(b: bool)
    | Int(i: int)
    | Uint(u: nat)
    | Ptr(target: Option<Value>)
    | Slice(elems: seq<Value>)
    | Struct(fields: seq<Field>)
      /** Any kind the walk has no branch for (smaller integers, float32, maps, arrays, ...): it reaches `NumField` and panics. */
    | Unhandled

  /** A struct field: the value of its `name` tag, if it has one, and its value. */
  datatype Field = Field(tag: Option<string>, value: Value)

  /** One assignment `params[key] = value`. */
  type Write = (string, string)

  predicate IsNilPtr(v: Value)
  {
    v.Ptr? && v.target.None?
  }

  /** The value behind a non-nil pointer, or the value itself: the walk looks through one pointer. */
  function Target(v: Value): Value
  {
    if v.Ptr? && v.target.Some? then v.target.value else v
  }

  /** The text a scalar is stored as: the string itself, `strconv.FormatBool`, `FormatInt`, `FormatUint`. */
  function Formatted(v: Value): (r: Option<string>)
    ensures r.Some? <==> v.Str? || v.Bool? || v.Int? || v.Uint?
    ensures v.Str? ==> r == Some(v.s)
  {
    match v
    case Str(s) => Some(s)
    case Bool(b) => Some(BoolToString(b))
    case Int(i) => Some(IntToString(i))
    case Uint(u) => Some(NatToString(u))
    case _ => None
  }

  /** The writes of `a`, then those of `b`; a panic in either is a panic. */
  function Then(a: Option<seq<Write>>, b: Option<seq<Write>>): (r: Option<seq<Write>>)
    ensures r.Some? <==> a.Some? && b.Some?
    ensures r.Some? ==> r.value == a.value + b.value
  {
    match (a, b)
    case (Some(x), Some(y)) => Some(x + y)
    case _ => None
  }

  /** The writes for the fields of a struct, in field order, under `prefix`; it panics exactly when one of its fields does. */
  function StructWrites(fields: seq<Field>, prefix: string, derefSlicePtr: bool): (r: Option<seq<Write>>)
    ensures r.None? <==> exists i :: 0 <= i < |fields| && FieldWrites(fields[i], prefix, derefSlicePtr).None?
    decreases fields
  {
    if fields == [] then Some([])
    else
      var n := |fields| - 1;
      assert forall i :: 0 <= i < n ==> fields[..n][i] == fields[i];
      Then(StructWrites(fields[..n], prefix, derefSlicePtr), FieldWrites(fields[n], prefix, derefSlicePtr))
  }

  /**
   * The writes for one field: nothing for an untagged field or a nil pointer;
   * otherwise, through at most one pointer, a non-empty string, a bool or an
   * integer under prefix+name, a slice element by element under
   * prefix+name+"."+index, a struct under prefix+name+".".
   */
  function FieldWrites(f: Field, prefix: string, derefSlicePtr: bool): (r: Option<seq<Write>>)
    ensures f.tag.None? || IsNilPtr(f.value) ==> r == Some([])
    ensures r.None? ==> f.tag.Some? && Formatted(Target(f.value)).None?
    decreases f
  {
    match f.tag
    case None => Some([])
    case Some(name) =>
      if IsNilPtr(f.value) then Some([])
      else
        var key := prefix + name;
        var x := if f.value.Ptr? then f.value.target.value else f.value;
        if x == Str("") then Some([])
        else if Formatted(x).Some? then Some([(key, Formatted(x).value)])
        else match x
          case Slice(es) => if f.value.Ptr? && !derefSlicePtr then None else ElemWrites(es, key, derefSlicePtr)
          case Struct(fs) => StructWrites(fs, key + ".", derefSlicePtr)
          case _ => None
  }

  /** The writes for the elements of a slice stored under `key`, element j under key+"."+j; it panics exactly when one element does. */
  function ElemWrites(es: seq<Value>, key: string, derefSlicePtr: bool): (r: Option<seq<Write>>)
    ensures r.None? <==> exists j :: 0 <= j < |es| && ElemWrite(es[j], ElemKey(key, j), derefSlicePtr).None?
    decreases es
  {
    if es == [] then Some([])
    else
      var n := |es| - 1;
      assert forall j :: 0 <= j < n ==> es[..n][j] == es[j];
      Then(ElemWrites(es[..n], key, derefSlicePtr), ElemWrite(es[n], ElemKey(key, n), derefSlicePtr))
  }

  /** The key of slice element `j`. */
  function ElemKey(key: string, j: nat): string
  {
    key + "." + NatToString(j)
  }

  /**
   * The writes for one slice element under `key`: a nil pointer writes
   * nothing, a scalar (an empty string included) is one write under `key`,
   * and only an element that is neither a scalar nor a struct panics.
   */
  function ElemWrite(v: Value, key: string, derefSlicePtr: bool): (r: Option<seq<Write>>)
    ensures IsNilPtr(v) ==> r == Some([])
    ensures !IsNilPtr(v) && Formatted(Target(v)).Some? ==> r == Some([(key, Formatted(Target(v)).value)])
    ensures r.None? ==>
              && !IsNilPtr(v) && Formatted(Target(v)).None?
              && (!Target(v).Struct? || StructWrites(Target(v).fields, key + ".", derefSlicePtr).None?)
    decreases v
  {
    if IsNilPtr(v) then Some([])
    else
      var x := if v.Ptr? then v.target.value else v;
      if Formatted(x).Some? then Some([(key, Formatted(x).value)])
      else if x.Struct? then StructWrites(x.fields, key + ".", derefSlicePtr)
      else None
  }

  /** Distinct slice indices give distinct element keys, so no element overwrites another. */
  lemma ElemKeysDistinct(key: string, i: nat, j: nat)
    requires i != j
    ensures ElemKey(key, i) != ElemKey(key, j)
  {
    if ElemKey(key, i) == ElemKey(key, j) {
      var p := key + ".";
      assert ElemKey(key, i)[|p|..] == NatToString(i);
      assert ElemKey(key, j)[|p|..] == NatToString(j);
      NatToStringInjective(i, j);
    }
  }

  /** The map after the writes, in order: a later write to a key wins. */
  function Apply(m: map<string, string>, ws: seq<Write>): map<string, string>
  {
    if ws == [] then m
    else
      var n := |ws| - 1;
      Apply(m, ws[..n])[ws[n].0 := ws[n].1]
  }

  lemma {:induction false} ApplyConcat(m: map<string, string>, a: seq<Write>, b: seq<Write>)
    ensures Apply(m, a + b) == Apply(Apply(m, a), b)
    decreases |b|
  {
    if b != [] {
      var n := |b| - 1;
      assert (a + b)[..|a| + n] == a + b[..n];
      ApplyConcat(m, a, b[..n]);
    } else {
      assert a + b == a;
    }
  }

  /** Writing only adds: the keys afterwards are the old keys and the written ones. */
  lemma {:induction false} ApplyKeys(m: map<string, string>, ws: seq<Write>)
    ensures Apply(m, ws).Keys == m.Keys + (set i | 0 <= i < |ws| :: ws[i].0)
  {
    if ws != [] {
      var n := |ws| - 1;
      ApplyKeys(m, ws[..n]);
      assert (set i | 0 <= i < |ws| :: ws[i].0) == (set i | 0 <= i < n :: ws[..n][i].0) + {ws[n].0};
    }
  }

  /** A key nobody writes keeps its old value. */
  lemma {:induction false} ApplyUntouched(m: map<string, string>, ws: seq<Write>, k: string)
    requires k in m && forall i :: 0 <= i < |ws| ==> ws[i].0 != k
    ensures k in Apply(m, ws) && Apply(m, ws)[k] == m[k]
  {
    if ws != [] {
      ApplyUntouched(m, ws[..|ws| - 1], k);
    }
  }

  /** A written key holds the value of its last write. */
  lemma {:induction false} ApplyLastWrite(m: map<string, string>, ws: seq<Write>, i: nat)
    requires i < |ws| && forall j :: i < j < |ws| ==> ws[j].0 != ws[i].0
    ensures ws[i].0 in Apply(m, ws) && Apply(m, ws)[ws[i].0] == ws[i].1
  {
    var n := |ws| - 1;
    if i < n {
      ApplyLastWrite(m, ws[..n], i);
    }
  }

  // ---------------------------------------------------------------------------
  // Where the keys go

  /** Every key written for a struct under `prefix` starts with `prefix`. */
  lemma {:induction false} StructKeysUnderPrefix(fields: seq<Field>, prefix: string, d: bool)
    requires StructWrites(fields, prefix, d).Some?
    ensures forall w :: w in StructWrites(fields, prefix, d).value ==> prefix <= w.0
    decreases fields
  {
    if fields != [] {
      var n := |fields| - 1;
      StructKeysUnderPrefix(fields[..n], prefix, d);
      FieldKeys(fields[n], prefix, d);
    }
  }

  /**
   * Every key written for a tagged field `name` is prefix+name itself or starts
   * with prefix+name+"."; an untagged field writes nothing.
   */
  lemma {:induction false} FieldKeys(f: Field, prefix: string, d: bool)
    requires FieldWrites(f, prefix, d).Some?
    ensures f.tag.None? ==> FieldWrites(f, prefix, d).value == []
    ensures f.tag.Some? ==> forall w :: w in FieldWrites(f, prefix, d).value ==>
      w.0 == prefix + f.tag.value || prefix + f.tag.value + "." <= w.0
    ensures forall w :: w in FieldWrites(f, prefix, d).value ==> prefix <= w.0
    decreases f
  {
    if f.tag.Some? && !IsNilPtr(f.value) {
      var key := prefix + f.tag.value;
      var x := if f.value.Ptr? then f.value.target.value else f.value;
      match x
      case Slice(es) =>
        ElemKeysUnderKey(es, key, d);
        forall w | w in FieldWrites(f, prefix, d).value ensures prefix <= w.0 {
          assert prefix <= key + ".";
        }
      case Struct(fs) =>
        StructKeysUnderPrefix(fs, key + ".", d);
        forall w | w in FieldWrites(f, prefix, d).value ensures prefix <= w.0 {
          assert prefix <= key + ".";
        }
      case _ =>
    }
  }

  /** Every key written for the elements of a slice under `key` starts with key+".". */
  lemma {:induction false} ElemKeysUnderKey(es: seq<Value>, key: string, d: bool)
    requires ElemWrites(es, key, d).Some?
    ensures forall w :: w in ElemWrites(es, key, d).value ==> key + "." <= w.0
    decreases es
  {
    if es != [] {
      var n := |es| - 1;
      ElemKeysUnderKey(es[..n], key, d);
      ElemKeys(es[n], ElemKey(key, n), d);
      assert key + "." <= ElemKey(key, n);
    }
  }

  /** Every key written for one slice element stored under `key` is `key` or starts with key+".". */
  lemma {:induction false} ElemKeys(v: Value, key: string, d: bool)
    requires ElemWrite(v, key, d).Some?
    ensures forall w :: w in ElemWrite(v, key, d).value ==> w.0 == key || key + "." <= w.0
    decreases v
  {
    if !IsNilPtr(v) {
      var x := if v.Ptr? then v.target.value else v;
      if x.Struct? {
        StructKeysUnderPrefix(x.fields, key + ".", d);
      }
    }
  }

  // ---------------------------------------------------------------------------
  // Fields that contribute nothing

  /** The fields that can write anything: tagged, and not a nil pointer. */
  function Contributing(fields: seq<Field>): (r: seq<Field>)
    ensures forall f :: f in r ==> f in fields && f.tag.Some? && !IsNilPtr(f.value)
  {
    if fields == [] then []
    else
      var n := |fields| - 1;
      var f := fields[n];
      Contributing(fields[..n]) + (if f.tag.Some? && !IsNilPtr(f.value) then [f] else [])
  }

  /** Untagged fields and nil pointers add nothing: dropping them leaves the writes unchanged. */
  lemma {:induction false} UntaggedAndNilAddNothing(fields: seq<Field>, prefix: string, d: bool)
    ensures StructWrites(Contributing(fields), prefix, d) == StructWrites(fields, prefix, d)
  {
    if fields != [] {
      var n := |fields| - 1;
      var f := fields[n];
      var c := Contributing(fields[..n]);
      UntaggedAndNilAddNothing(fields[..n], prefix, d);
      if f.tag.Some? && !IsNilPtr(f.value) {
        assert (c + [f])[..|c|] == c;
      } else {
        assert Contributing(fields) == c;
        match StructWrites(fields[..n], prefix, d)
        case Some(x) => assert x + [] == x;
        case None =>
      }
    }
  }

  /** An empty string is skipped as a field but stored as a slice element. */
  lemma EmptyStringHandling(name: string, prefix: string, d: bool)
    ensures FieldWrites(Field(Some(name), Str("")), prefix, d) == Some([])
    ensures FieldWrites(Field(Some(name), Slice([Str("")])), prefix, d) == Some([(prefix + name + ".0", "")])
  {
    var key := prefix + name;
    assert NatToString(0) == "0";
    assert ElemKey(key, 0) == prefix + name + ".0";
    var es := [Str("")];
    assert es[..0] == [];
    assert ElemWrites(es[..0], key, d) == Some([]);
    assert ElemWrite(es[0], ElemKey(key, 0), d) == Some([(ElemKey(key, 0), "")]);
    assert [] + [(ElemKey(key, 0), "")] == [(ElemKey(key, 0), "")];
    assert ElemWrites(es, key, d) == Some([(prefix + name + ".0", "")]);
  }

  // ---------------------------------------------------------------------------
  // Pointer fields

  /** `fields` with field `i` holding a pointer to its former value. */
  function Boxed(fields: seq<Field>, i: nat): seq<Field>
    requires i < |fields|
  {
    fields[i := Field(fields[i].tag, Ptr(Some(fields[i].value)))]
  }

  /**
   * With the fix, a pointer field flattens exactly like the value it points
   * to (unless that value is itself a pointer, which panics either way).
   */
  lemma {:induction false} PointerFieldTransparent(fields: seq<Field>, i: nat, prefix: string)
    requires i < |fields| && !fields[i].value.Ptr?
    ensures StructWrites(Boxed(fields, i), prefix, true) == StructWrites(fields, prefix, true)
  {
    var n := |fields| - 1;
    var boxed := Boxed(fields, i);
    if i == n {
      assert boxed[..n] == fields[..n];
    } else {
      assert boxed[..n] == Boxed(fields[..n], i);
      PointerFieldTransparent(fields[..n], i, prefix);
    }
  }

  /**
   * As written, a non-nil pointer-to-slice field panics, while the same slice
   * held directly is flattened; the fix flattens both alike.
   */
  lemma PointerToSliceAsWritten()
    ensures StructWrites([Field(Some("ids"), Ptr(Some(Slice([Uint(7)]))))], "", false) == None
    ensures StructWrites([Field(Some("ids"), Slice([Uint(7)]))], "", false) == Some([("ids.0", "7")])
    ensures StructWrites([Field(Some("ids"), Ptr(Some(Slice([Uint(7)]))))], "", true) == Some([("ids.0", "7")])
  {
    var es := [Uint(7)];
    assert NatToString(0) == "0" && NatToString(7) == "7";
    assert ElemKey("ids", 0) == "ids.0";
    assert es[..0] == [];
    assert [] + [("ids.0", "7")] == [("ids.0", "7")];
    assert ElemWrite(es[0], ElemKey("ids", 0), false) == Some([("ids.0", "7")]);
    assert ElemWrite(es[0], ElemKey("ids", 0), true) == Some([("ids.0", "7")]);
    assert ElemWrites(es, "ids", false) == Some([("ids.0", "7")]);
    assert ElemWrites(es, "ids", true) == Some([("ids.0", "7")]);
    assert "" + "ids" == "ids";
    var direct := [Field(Some("ids"), Slice(es))];
    assert direct[..0] == [];
    assert FieldWrites(direct[0], "", false) == Some([("ids.0", "7")]);
    assert [] + [("ids.0", "7")] == [("ids.0", "7")];
  }

  /** Wherever the walk as written does not panic, the corrected walk performs the same writes. */
  lemma {:induction false} StructFixAgrees(fields: seq<Field>, prefix: string)
    requires StructWrites(fields, prefix, false).Some?
    ensures StructWrites(fields, prefix, true) == StructWrites(fields, prefix, false)
    decreases fields
  {
    if fields != [] {
      var n := |fields| - 1;
      StructFixAgrees(fields[..n], prefix);
      FieldFixAgrees(fields[n], prefix);
    }
  }

  lemma {:induction false} FieldFixAgrees(f: Field, prefix: string)
    requires FieldWrites(f, prefix, false).Some?
    ensures FieldWrites(f, prefix, true) == FieldWrites(f, prefix, false)
    decreases f
  {
    if f.tag.Some? && !IsNilPtr(f.value) {
      var key := prefix + f.tag.value;
      var x := if f.value.Ptr? then f.value.target.value else f.value;
      if x != Str("") && Formatted(x).None? {
        match x
        case Slice(es) => ElemsFixAgree(es, key);
        case Struct(fs) => StructFixAgrees(fs, key + ".");
        case _ =>
      }
    }
  }

  lemma {:induction false} ElemsFixAgree(es: seq<Value>, key: string)
    requires ElemWrites(es, key, false).Some?
    ensures ElemWrites(es, key, true) == ElemWrites(es, key, false)
    decreases es
  {
    if es != [] {
      var n := |es| - 1;
      ElemsFixAgree(es[..n], key);
      ElemFixAgrees(es[n], ElemKey(key, n));
    }
  }

  lemma {:induction false} ElemFixAgrees(v: Value, key: string)
    requires ElemWrite(v, key, false).Some?
    ensures ElemWrite(v, key, true) == ElemWrite(v, key, false)
    decreases v
  {
    if !IsNilPtr(v) {
      var x := if v.Ptr? then v.target.value else v;
      if Formatted(x).None? && x.Struct? {
        StructFixAgrees(x.fields, key + ".");
      }
    }
  }

  // ---------------------------------------------------------------------------
  // Scalars and slices

  /** A tagged scalar field (other than the empty string) is stored under prefix+name, alone. */
  lemma ScalarField(name: string, v: Value, prefix: string, d: bool)
    requires Formatted(v).Some? && v != Str("")
    ensures FieldWrites(Field(Some(name), v), prefix, d) == Some([(prefix + name, Formatted(v).value)])
    ensures FieldWrites(Field(Some(name), Ptr(Some(v))), prefix, d) == Some([(prefix + name, Formatted(v).value)])
  {
  }

  /** A slice of scalars stores element j under key+"."+j, in index order, empty strings included. */
  lemma {:induction false} ScalarSlice(es: seq<Value>, key: string, d: bool)
    requires forall j :: 0 <= j < |es| ==> Formatted(es[j]).Some?
    ensures ElemWrites(es, key, d).Some?
    ensures var ws := ElemWrites(es, key, d).value;
      |ws| == |es| && forall j :: 0 <= j < |es| ==> ws[j] == (ElemKey(key, j), Formatted(es[j]).value)
  {
    if es != [] {
      var n := |es| - 1;
      ScalarSlice(es[..n], key, d);
      assert !IsNilPtr(es[n]);
      assert ElemWrite(es[n], ElemKey(key, n), d) == Some([(ElemKey(key, n), Formatted(es[n]).value)]);
    }
  }

  /** A walk that does not panic does not panic on any leading run of the fields either. */
  lemma {:induction false} StructPrefixSome(fields: seq<Field>, i: nat, prefix: string, d: bool)
    requires i <= |fields| && StructWrites(fields, prefix, d).Some?
    ensures StructWrites(fields[..i], prefix, d).Some?
    decreases |fields| - i
  {
    if i < |fields| {
      var n := |fields| - 1;
      assert fields[..n][..i] == fields[..i];
      StructPrefixSome(fields[..n], i, prefix, d);
    } else {
      assert fields[..i] == fields;
    }
  }

  lemma {:induction false} ElemPrefixSome(es: seq<Value>, i: nat, key: string, d: bool)
    requires i <= |es| && ElemWrites(es, key, d).Some?
    ensures ElemWrites(es[..i], key, d).Some?
    decreases |es| - i
  {
    if i < |es| {
      var n := |es| - 1;
      assert es[..n][..i] == es[..i];
      ElemPrefixSome(es[..n], i, key, d);
    } else {
      assert es[..i] == es;
    }
  }

  // ---------------------------------------------------------------------------
  // The walk

  /**
   * `flatStructure` with the fix, writing into the request's parameters: the
   * parameters afterwards are the old ones with the writes of `StructWrites`
   * applied in order, and nothing else in the request changes. The walk must
   * not panic. The body of the Go loop over fields is `FlatField`, its inner
   * loop over slice elements `FlatSlice`, and that loop's body `FlatElem`.
   */
  method FlatStructure(fields: seq<Field>, r: BaseRequest, prefix: string)
    requires StructWrites(fields, prefix, true).Some?
    modifies r
    ensures r.params == Apply(old(r.params), StructWrites(fields, prefix, true).value)
    ensures r.State() == old(r.State()).(params := r.params)
    decreases fields
  {
    var i := 0;
    while i < |fields|
      invariant 0 <= i <= |fields|
      invariant StructWrites(fields[..i], prefix, true).Some?
      invariant r.params == Apply(old(r.params), StructWrites(fields[..i], prefix, true).value)
      invariant r.State() == old(r.State()).(params := r.params)
    {
      assert fields[..i + 1][..i] == fields[..i];
      StructPrefixSome(fields, i + 1, prefix, true);
      ApplyConcat(old(r.params), StructWrites(fields[..i], prefix, true).value, FieldWrites(fields[i], prefix, true).value);
      FlatField(fields[i], r, prefix);
      i := i + 1;
    }
    assert fields[..i] == fields;
  }

  /** One field of the walk: skips untagged fields and nil pointers, dereferences one pointer, stores or descends. */
  method FlatField(f: Field, r: BaseRequest, prefix: string)
    requires FieldWrites(f, prefix, true).Some?
    modifies r
    ensures r.params == Apply(old(r.params), FieldWrites(f, prefix, true).value)
    ensures r.State() == old(r.State()).(params := r.params)
    decreases f
  {
    if f.tag.Some? && !IsNilPtr(f.value) {
      var name := f.tag.value;
      var field := if f.value.Ptr? then f.value.target.value else f.value;
      var key := prefix + name;
      match field
      case Str(s) =>
        if s != "" {
          r.params := r.params[key := s];
        }
      case Bool(b) =>
        r.params := r.params[key := BoolToString(b)];
      case Int(n) =>
        r.params := r.params[key := IntToString(n)];
      case Uint(n) =>
        r.params := r.params[key := NatToString(n)];
      case Slice(es) =>
        FlatSlice(es, r, key);
      case Struct(fs) =>
        FlatStructure(fs, r, key + ".");
      case _ =>
        assert false;
    }
  }

  /** The loop over the elements of a slice stored under `key`. */
  method FlatSlice(es: seq<Value>, r: BaseRequest, key: string)
    requires ElemWrites(es, key, true).Some?
    modifies r
    ensures r.params == Apply(old(r.params), ElemWrites(es, key, true).value)
    ensures r.State() == old(r.State()).(params := r.params)
    decreases es
  {
    var j := 0;
    while j < |es|
      invariant 0 <= j <= |es|
      invariant ElemWrites(es[..j], key, true).Some?
      invariant r.params == Apply(old(r.params), ElemWrites(es[..j], key, true).value)
      invariant r.State() == old(r.State()).(params := r.params)
    {
      assert es[..j + 1][..j] == es[..j];
      ElemPrefixSome(es, j + 1, key, true);
      var done, next := ElemWrites(es[..j], key, true).value, ElemWrite(es[j], ElemKey(key, j), true).value;
      assert ElemWrites(es[..j + 1], key, true).value == done + next;
      ApplyConcat(old(r.params), done, next);
      FlatElem(es[j], r, ElemKey(key, j));
      j := j + 1;
    }
    assert es[..j] == es;
  }

  /** One slice element: skips a nil pointer, dereferences one pointer, stores a scalar (even "") or descends into a struct. */
  method FlatElem(v: Value, r: BaseRequest, key: string)
    requires ElemWrite(v, key, true).Some?
    modifies r
    ensures r.params == Apply(old(r.params), ElemWrite(v, key, true).value)
    ensures r.State() == old(r.State()).(params := r.params)
    decreases v
  {
    if !IsNilPtr(v) {
      var vj := if v.Ptr? then v.target.value else v;
      match vj
      case Str(s) =>
        r.params := r.params[key := s];
      case Bool(b) =>
        r.params := r.params[key := BoolToString(b)];
      case Int(n) =>
        r.params := r.params[key := IntToString(n)];
      case Uint(n) =>
        r.params := r.params[key := NatToString(n)];
      case Struct(fs) =>
        FlatStructure(fs, r, key + ".");
      case _ =>
        assert false;
    }
  }

  /**
   * `ConstructParams`: the walk over the fields of the request value itself,
   * with an empty prefix.
   */
  method ConstructParams(r: BaseRequest, fields: seq<Field>)
    requires StructWrites(fields, "", true).Some?
    modifies r
    ensures r.params == Apply(old(r.params), StructWrites(fields, "", true).value)
    ensures r.State() == old(r.State()).(params := r.params)
  {
    FlatStructure(fields, r, "");
  }
}
