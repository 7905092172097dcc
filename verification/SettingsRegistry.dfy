// The field types of the settings registry and the coercion of submitted values.
module SettingsRegistry {
  import opened Options
  import opened Texts

  // A Python float; rounding is left to Floats.
  datatype Float = Finite(x: real) | Infinite(positive: bool) | NaN

  // JSON values as Python reads them; Object stands for any JSON object.
  datatype Value = Null | Bool(b: bool) | Int(n: int) | Num(f: Float) | Str(s: string) | List(xs: seq<Value>) | Object

  datatype Kind = BoolK | IntK | FloatK | StrK | SecretK | EnumK | ListStrK | ListIntK | ServersK

  datatype Field = Field(kind: Kind, choices: seq<string>, nullable: bool, min: Option<int>, restart: bool)

  // float(text), None for a ValueError; float(int), None for an OverflowError.
  datatype Floats = Floats(ofText: string -> Option<Float>, ofInt: int -> Option<Float>)

  // A conversion succeeds, is reported as a validation error, or raises an OverflowError, which
  // nothing catches.
  datatype Coercion<+T> = Good(value: T) | Invalid | Overflow

  function Truncated(x: real): int {
    if x >= 0.0 then x.Floor else -((-x).Floor)
  }

  // int(x) on a JSON value.
  function ToInt(v: Value): Coercion<int> {
    match v
    case Bool(b) => Good(if b then 1 else 0)
    case Int(n) => Good(n)
    case Num(Finite(x)) => Good(Truncated(x))
    case Num(Infinite(_)) => Overflow
    case Num(NaN) => Invalid
    case Str(s) => (match ParseInt(Strip(s, Whitespace)) case Some(n) => Good(n) case None => Invalid)
    case _ => Invalid
  }

  // float(x) on a JSON value other than a boolean.
  function ToFloat(v: Value, floats: Floats): Coercion<Float> {
    match v
    case Int(n) => (match floats.ofInt(n) case Some(f) => Good(f) case None => Overflow)
    case Num(f) => Good(f)
    case Str(s) => (match floats.ofText(s) case Some(f) => Good(f) case None => Invalid)
    case _ => Invalid
  }

  // x.strip(), kept if anything is left.
  function StripOne(s: string): seq<Value> {
    var t := Strip(s, Whitespace);
    if t == "" then [] else [Str(t)]
  }

  function StripItem(v: Value): Option<seq<Value>> {
    if v.Str? then Some(StripOne(v.s)) else None
  }

  function Appended(a: Option<seq<Value>>, b: Option<seq<Value>>): Option<seq<Value>> {
    if a.Some? && b.Some? then Some(a.value + b.value) else None
  }

  function StripAll(xs: seq<Value>): Option<seq<Value>> {
    if xs == [] then Some([]) else Appended(StripItem(xs[0]), StripAll(xs[1..]))
  }

  // The first element that fails decides how the list fails.
  function ToInts(xs: seq<Value>): Coercion<seq<Value>> {
    if xs == [] then Good([])
    else
      match ToInt(xs[0])
      case Invalid => Invalid
      case Overflow => Overflow
      case Good(n) =>
        match ToInts(xs[1..])
        case Invalid => Invalid
        case Overflow => Overflow
        case Good(rest) => Good([Int(n)] + rest)
  }

  // value < field.min, which is false of NaN.
  predicate BelowMin(field: Field, v: Value) {
    field.min.Some? && (match v
                        case Int(n) => n < field.min.value
                        case Num(Finite(x)) => x < field.min.value as real
                        case Num(Infinite(positive)) => !positive
                        case _ => false)
  }

  function When(c: bool, v: Value): Coercion<Value> { if c then Good(v) else Invalid }

  // The value as its kind stores it, before the lower bound is checked.
  function Converted(kind: Kind, choices: seq<string>, v: Value, floats: Floats): Coercion<Value> {
    match kind
    case BoolK => When(v.Bool?, v)
    case IntK =>
      if v.Int? || v.Num? || v.Str? then
        (match ToInt(v) case Good(n) => Good(Int(n)) case Invalid => Invalid case Overflow => Overflow)
      else Invalid
    case FloatK =>
      (match ToFloat(v, floats) case Good(f) => Good(Num(f)) case Invalid => Invalid case Overflow => Overflow)
    case StrK => When(v.Str?, v)
    case SecretK => When(v.Str?, v)
    case EnumK => When(v.Str? && v.s in choices, v)
    case ListStrK => if v.List? && StripAll(v.xs).Some? then Good(List(StripAll(v.xs).value)) else Invalid
    case ListIntK =>
      if v.List? then
        (match ToInts(v.xs) case Good(ns) => Good(List(ns)) case Invalid => Invalid case Overflow => Overflow)
      else Invalid
    case ServersK => Good(v)
  }

  function Coerce(field: Field, v: Value, floats: Floats): Coercion<Value> {
    if v.Null? then (if field.nullable then Good(Null) else Invalid)
    else
      var w := Converted(field.kind, field.choices, v, floats);
      if w.Good? && !field.kind.BoolK? && BelowMin(field, w.value) then Invalid else w
  }

  // The values a field stores: of its own type, within its bound, list items stripped.
  predicate InType(field: Field, v: Value) {
    if v.Null? then field.nullable
    else
      && (field.kind.BoolK? || !BelowMin(field, v))
      && match field.kind
         case BoolK => v.Bool?
         case IntK => v.Int?
         case FloatK => v.Num?
         case StrK => v.Str?
         case SecretK => v.Str?
         case EnumK => v.Str? && v.s in field.choices
         case ListStrK => v.List? && forall x <- v.xs :: Stripped(x)
         case ListIntK => v.List? && forall x <- v.xs :: x.Int?
         case ServersK => true
  }

  predicate Stripped(v: Value) { v.Str? && v.s != "" && Trim(v.s, Whitespace) }

  lemma {:induction false} StripAllStrips(xs: seq<Value>)
    requires StripAll(xs).Some?
    ensures forall x <- StripAll(xs).value :: Stripped(x)
  {
    if xs != [] {
      StripAllStrips(xs[1..]);
      StripOneStrips(xs[0].s);
    }
  }

  lemma StripOneStrips(s: string)
    ensures forall x <- StripOne(s) :: Stripped(x)
    ensures Stripped(Str(s)) ==> StripOne(s) == [Str(s)]
  {
  }

  lemma {:induction false} StripAllAgain(xs: seq<Value>)
    requires forall i :: 0 <= i < |xs| ==> Stripped(xs[i])
    ensures StripAll(xs) == Some(xs)
  {
    if xs != [] {
      var x, rest := xs[0], xs[1..];
      assert Stripped(x);
      StripAllAgain(rest);
      StripOneStrips(x.s);
      assert xs == [x] + rest;
    }
  }

  lemma {:induction false} ToIntsAreInts(xs: seq<Value>)
    requires ToInts(xs).Good?
    ensures forall x <- ToInts(xs).value :: x.Int?
  {
    if xs != [] {
      ToIntsAreInts(xs[1..]);
    }
  }

  lemma {:induction false} ToIntsAgain(xs: seq<Value>)
    requires forall i :: 0 <= i < |xs| ==> xs[i].Int?
    ensures ToInts(xs) == Good(xs)
  {
    if xs != [] {
      ToIntsAgain(xs[1..]);
      assert xs[0].Int? && xs == [xs[0]] + xs[1..];
    }
  }

  // What the coercion yields is in the field's type, ...
  lemma CoercedInType(field: Field, v: Value, floats: Floats)
    requires Coerce(field, v, floats).Good?
    ensures InType(field, Coerce(field, v, floats).value)
  {
    if v.List? {
      if field.kind.ListStrK? {
        StripAllStrips(v.xs);
      } else if field.kind.ListIntK? {
        ToIntsAreInts(v.xs);
      }
    }
  }

  // ... and exactly the values in the type are coerced to themselves, ...
  lemma FixedIffInType(field: Field, v: Value, floats: Floats)
    ensures Coerce(field, v, floats) == Good(v) <==> InType(field, v)
  {
    if InType(field, v) {
      InTypeIsFixed(field, v, floats);
    } else if Coerce(field, v, floats) == Good(v) {
      CoercedInType(field, v, floats);
    }
  }

  lemma InTypeIsFixed(field: Field, v: Value, floats: Floats)
    requires InType(field, v)
    ensures Coerce(field, v, floats) == Good(v)
  {
    if v.List? {
      assert forall i :: 0 <= i < |v.xs| ==> v.xs[i] in v.xs;
      if field.kind.ListStrK? {
        StripAllAgain(v.xs);
      } else if field.kind.ListIntK? {
        ToIntsAgain(v.xs);
      }
    }
  }

  // ... so a stored value passes the coercion at startup unchanged.
  lemma CoerceIsIdempotent(field: Field, v: Value, floats: Floats)
    requires Coerce(field, v, floats).Good?
    ensures Coerce(field, Coerce(field, v, floats).value, floats) == Coerce(field, v, floats)
  {
    CoercedInType(field, v, floats);
    FixedIffInType(field, Coerce(field, v, floats).value, floats);
  }

  // ---- what each kind accepts, and as what ----

  predicate AtLeast(field: Field, n: int) { field.min.Some? ==> n >= field.min.value }

  // An integer field takes integers, numbers cut towards zero, and integers written as text,
  // if they are not below the bound; NaN is refused, and infinity raises.
  lemma IntegersAre(field: Field, n: int, x: real, floats: Floats)
    requires field.kind == IntK
    ensures Coerce(field, Int(n), floats) == if AtLeast(field, n) then Good(Int(n)) else Invalid
    ensures Coerce(field, Num(NaN), floats) == Invalid
    ensures Coerce(field, Num(Infinite(true)), floats) == Coerce(field, Num(Infinite(false)), floats) == Overflow
    ensures (if x >= 0.0 then n as real <= x < n as real + 1.0 else n as real - 1.0 < x <= n as real) ==>
              Coerce(field, Num(Finite(x)), floats) == Coerce(field, Int(n), floats)
    ensures forall b :: Coerce(field, Bool(b), floats) == Invalid
    ensures Coerce(field, Object, floats) == Invalid && forall xs :: Coerce(field, List(xs), floats) == Invalid
  {
    if x >= 0.0 && n as real <= x < n as real + 1.0 {
      assert x.Floor == n;
    }
    if x < 0.0 && n as real - 1.0 < x <= n as real {
      assert (-x).Floor == -n;
    }
  }

  lemma IntegerTextsAre(field: Field, n: nat, floats: Floats)
    requires field.kind == IntK
    ensures Coerce(field, Str(IntText(n)), floats) == Coerce(field, Int(n), floats)
  {
    ReadsAsInt(IntText(n), n);
    SameConversion(field, IntText(n), n, floats);
  }

  lemma ReadsAsInt(s: string, n: nat)
    requires s == IntText(n)
    ensures ToInt(Str(s)) == Good(n)
  {
    ParseIntText(n);
    IntTextTrims(n);
  }

  lemma SameConversion(field: Field, s: string, n: int, floats: Floats)
    requires field.kind == IntK && ToInt(Str(s)) == Good(n)
    ensures Coerce(field, Str(s), floats) == Coerce(field, Int(n), floats)
  {
  }

  lemma IntTextTrims(n: nat)
    ensures Strip(IntText(n), Whitespace) == IntText(n)
  {
    var s := IntText(n);
    assert IsDigit(s[0]) && IsDigit(s[|s| - 1]) by {
      assert s[0] in s && s[|s| - 1] in s;
    }
    assert Trim(s, Whitespace);
  }

  // A switch takes true and false alone, a text any text, a choice its choices, and null is for
  // fields that may be null.
  lemma TextsAre(field: Field, v: Value, floats: Floats)
    ensures v == Null ==> Coerce(field, v, floats) == if field.nullable then Good(Null) else Invalid
    ensures v != Null && field.kind == BoolK ==> Coerce(field, v, floats) == if v.Bool? then Good(v) else Invalid
    ensures v != Null && (field.kind == StrK || field.kind == SecretK) ==>
              Coerce(field, v, floats) == if v.Str? then Good(v) else Invalid
    ensures v != Null && field.kind == EnumK ==>
              Coerce(field, v, floats) == if v.Str? && v.s in field.choices then Good(v) else Invalid
  {
  }

  // A float field takes any number, floats not below the bound and NaN included, and texts and
  // integers as Python converts them; it takes no booleans.
  lemma FloatsAre(field: Field, x: real, b: bool, n: int, s: string, floats: Floats)
    requires field.kind == FloatK
    ensures Coerce(field, Num(Finite(x)), floats) ==
            if field.min.Some? && x < field.min.value as real then Invalid else Good(Num(Finite(x)))
    ensures Coerce(field, Num(NaN), floats) == Good(Num(NaN))
    ensures Coerce(field, Num(Infinite(b)), floats) ==
            if field.min.Some? && !b then Invalid else Good(Num(Infinite(b)))
    ensures Coerce(field, Bool(b), floats) == Coerce(field, Object, floats) == Invalid
    ensures floats.ofInt(n).Some? ==> Coerce(field, Int(n), floats) == Coerce(field, Num(floats.ofInt(n).value), floats)
    ensures floats.ofText(s).Some? ==>
              Coerce(field, Str(s), floats) == Coerce(field, Num(floats.ofText(s).value), floats)
    ensures floats.ofInt(n).None? ==> Coerce(field, Int(n), floats) == Overflow
    ensures floats.ofText(s).None? ==> Coerce(field, Str(s), floats) == Invalid
  {
  }

  // A list of texts keeps its items in order, stripped, and drops the blank ones; a list with
  // any other item is refused.
  lemma {:induction false} StripAllAppend(a: seq<Value>, b: seq<Value>)
    ensures StripAll(a + b) == Appended(StripAll(a), StripAll(b))
    decreases |a|
  {
    if a == [] {
      assert a + b == b;
      NothingAppended(StripAll(b));
    } else {
      StripAllAppend(a[1..], b);
      HeadAndTail(a, b);
      AppendedAssociates(StripItem(a[0]), StripAll(a[1..]), StripAll(b));
    }
  }

  lemma HeadAndTail<T>(a: seq<T>, b: seq<T>)
    requires a != []
    ensures a + b != [] && (a + b)[0] == a[0] && (a + b)[1..] == a[1..] + b
  {
  }

  lemma NothingAppended(b: Option<seq<Value>>)
    ensures Appended(Some([]), b) == b
  {
    if b.Some? {
      assert [] + b.value == b.value;
    }
  }

  lemma AppendedAssociates(a: Option<seq<Value>>, b: Option<seq<Value>>, c: Option<seq<Value>>)
    ensures Appended(a, Appended(b, c)) == Appended(Appended(a, b), c)
  {
    if a.Some? && b.Some? && c.Some? {
      assert a.value + (b.value + c.value) == (a.value + b.value) + c.value;
    }
  }

  lemma OneItem(x: Value)
    ensures StripAll([x]) ==
            if !x.Str? then None
            else if Strip(x.s, Whitespace) == "" then Some([])
            else Some([Str(Strip(x.s, Whitespace))])
  {
    assert [x][1..] == [] && StripAll([x]) == Appended(StripItem(x), Some([]));
    if x.Str? {
      var t := StripOne(x.s);
      assert t + [] == t;
    }
  }

  // So coercion splits a list of texts: each item is stripped, a blank one is dropped, one that
  // is no text refuses the list, and the rest follow in order.
  lemma TextListsAre(field: Field, a: seq<Value>, b: seq<Value>, x: Value, floats: Floats)
    requires field.kind == ListStrK
    ensures Coerce(field, List([]), floats) == Good(List([]))
    ensures Coerce(field, List([x]), floats) ==
            if !x.Str? then Invalid
            else if Strip(x.s, Whitespace) == "" then Good(List([]))
            else Good(List([Str(Strip(x.s, Whitespace))]))
    ensures var first, second := Coerce(field, List(a), floats), Coerce(field, List(b), floats);
            Coerce(field, List(a + b), floats) ==
            if first.Good? && second.Good? && first.value.List? && second.value.List? then
              Good(List(first.value.xs + second.value.xs))
            else Invalid
  {
    OneItem(x);
    StripAllAppend(a, b);
    ListIsStripped(field, [], floats);
    ListIsStripped(field, [x], floats);
    ListIsStripped(field, a, floats);
    ListIsStripped(field, b, floats);
    ListIsStripped(field, a + b, floats);
  }

  lemma ListIsStripped(field: Field, xs: seq<Value>, floats: Floats)
    requires field.kind == ListStrK
    ensures Coerce(field, List(xs), floats) ==
            if StripAll(xs).Some? then Good(List(StripAll(xs).value)) else Invalid
  {
  }

  // A list of integers is coerced item by item, and the first item that is no integer decides
  // how the list fails.
  lemma IntListsAre(field: Field, xs: seq<Value>, floats: Floats)
    requires field.kind == ListIntK
    ensures Coerce(field, List(xs), floats).Good? <==> forall i :: 0 <= i < |xs| ==> ToInt(xs[i]).Good?
    ensures Coerce(field, List(xs), floats).Good? ==>
              var v := Coerce(field, List(xs), floats).value;
              && v.List? && |v.xs| == |xs|
              && forall i :: 0 <= i < |xs| ==> ToInt(xs[i]).Good? && v.xs[i] == Int(ToInt(xs[i]).value)
    ensures forall i :: 0 <= i < |xs| && !ToInt(xs[i]).Good? && (forall j :: 0 <= j < i ==> ToInt(xs[j]).Good?) ==>
              Coerce(field, List(xs), floats) == if ToInt(xs[i]).Invalid? then Invalid else Overflow
  {
    ToIntsFailFirst(xs);
    if ToInts(xs).Good? {
      forall i | 0 <= i < |xs|
        ensures |ToInts(xs).value| == |xs| && ToInt(xs[i]).Good? && ToInts(xs).value[i] == Int(ToInt(xs[i]).value)
      {
        ToIntsAt(xs, i);
      }
      ToIntsLength(xs);
    }
  }

  // What a list item is as an integer: true is 1 there.
  lemma ItemsAre(n: int, b: bool)
    ensures ToInt(Int(n)) == Good(n) && ToInt(Bool(b)) == Good(if b then 1 else 0)
    ensures n >= 0 ==> ToInt(Str(IntText(n))) == Good(n)
    ensures ToInt(Null) == ToInt(Object) == ToInt(Num(NaN)) == Invalid
    ensures ToInt(Num(Infinite(b))) == Overflow
  {
    if n >= 0 {
      ReadsAsInt(IntText(n), n);
    }
  }

  lemma {:induction false} ToIntsFailFirst(xs: seq<Value>)
    ensures ToInts(xs).Good? || exists i :: 0 <= i < |xs| && !ToInt(xs[i]).Good?
    ensures forall i :: 0 <= i < |xs| && !ToInt(xs[i]).Good? && (forall j :: 0 <= j < i ==> ToInt(xs[j]).Good?) ==>
              ToInts(xs) == if ToInt(xs[i]).Invalid? then Invalid else Overflow
  {
    if xs != [] {
      var rest := xs[1..];
      ToIntsFailFirst(rest);
      if !ToInts(xs).Good? && ToInt(xs[0]).Good? {
        var k :| 0 <= k < |rest| && !ToInt(rest[k]).Good?;
        assert !ToInt(xs[k + 1]).Good?;
      }
      forall i | 0 <= i < |xs| && !ToInt(xs[i]).Good? && (forall j :: 0 <= j < i ==> ToInt(xs[j]).Good?)
        ensures ToInts(xs) == if ToInt(xs[i]).Invalid? then Invalid else Overflow
      {
        if i > 0 {
          assert rest[i - 1] == xs[i] && forall j :: 0 <= j < i - 1 ==> rest[j] == xs[j + 1];
        }
      }
    }
  }

  lemma {:induction false} ToIntsAt(xs: seq<Value>, i: nat)
    requires ToInts(xs).Good? && i < |xs|
    ensures |ToInts(xs).value| == |xs| && ToInt(xs[i]).Good? && ToInts(xs).value[i] == Int(ToInt(xs[i]).value)
  {
    ToIntsLength(xs);
    if i > 0 {
      ToIntsAt(xs[1..], i - 1);
    }
  }

  lemma {:induction false} ToIntsLength(xs: seq<Value>)
    requires ToInts(xs).Good?
    ensures |ToInts(xs).value| == |xs|
  {
    if xs != [] {
      ToIntsLength(xs[1..]);
    }
  }
}
