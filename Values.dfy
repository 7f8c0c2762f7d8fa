/** JavaScript values as the restaurant client sees them after JSON decoding,
    together with the few language rules the core depends on: property reads
    and strict-mode property writes, truthiness, string conversion and
    `String.prototype.split` on a one-character separator. */
module Values {

  datatype Option<T> = None | Some(value: T)

  /** Why an operation threw instead of returning.
      TypeError: what strict-mode JavaScript throws for a property access on
      `null`/`undefined`, a property write on a primitive, or a call of a
      method the receiver does not have.
      Unsupported: a write JavaScript accepts but whose result this value model
      cannot represent (a named property or a hole on an array). */
  datatype Fault = TypeError | Unsupported

  datatype Result<T> = Ok(value: T) | Err(fault: Fault)

  /** The completion of a call that returns nothing but may throw. */
  datatype Outcome = Done | Fail(fault: Fault)

  /** A JSON-shaped JavaScript value. Numbers are integers; objects are maps
      from property names to values (own, enumerable properties only). */
  datatype Value =
    | Undefined
    | Null
    | Bool(b: bool)
    | Num(n: int)
    | Str(s: string)
    | Arr(items: seq<Value>)
    | Obj(fields: map<string, Value>)

  const EmptyObj: Value := Obj(map[])

  /** `v == null` in JavaScript: loose equality with null. */
  predicate Nullish(v: Value) {
    v.Undefined? || v.Null?
  }

  /** JavaScript truthiness (`if (v)`, `v || w`, `!!v`). */
  predicate Truthy(v: Value) {
    match v
    case Undefined => false
    case Null => false
    case Bool(b) => b
    case Num(n) => n != 0
    case Str(s) => s != ""
    case Arr(_) => true
    case Obj(_) => true
  }

  /** `v || d`: `v` when truthy, otherwise the default. */
  function OrElse(v: Value, d: Value): (r: Value)
    ensures Truthy(v) ==> r == v
    ensures !Truthy(v) ==> r == d
  {
    if Truthy(v) then v else d
  }

  /** Strict equality `a === b`. Two objects or arrays are `===` only when they
      are the same reference; values do not carry identity here, so such a
      comparison is false. */
  predicate StrictEq(a: Value, b: Value) {
    !a.Arr? && !a.Obj? && a == b
  }

  // ---------------------------------------------------------------------------
  // Decimal numerals

  function DigitChar(d: nat): char
    requires d < 10
  {
    "0123456789"[d]
  }

  function NatToString(n: nat): (s: string)
    ensures |s| >= 1
    ensures forall i :: 0 <= i < |s| ==> '0' <= s[i] <= '9'
    ensures n >= 10 ==> s[0] != '0'
    decreases n
  {
    if n < 10 then [DigitChar(n)] else NatToString(n / 10) + [DigitChar(n % 10)]
  }

  function IntToString(i: int): string {
    if i < 0 then "-" + NatToString(-i) else NatToString(i)
  }

  predicate AllDigits(s: string) {
    forall i :: 0 <= i < |s| ==> '0' <= s[i] <= '9'
  }

  function DigitsValue(s: string): nat
    requires AllDigits(s)
    decreases |s|
  {
    if |s| == 0 then 0
    else DigitsValue(s[..|s| - 1]) * 10 + ((s[|s| - 1] as int) - ('0' as int))
  }

  lemma DigitCharValue(d: nat)
    requires d < 10
    ensures (DigitChar(d) as int) - ('0' as int) == d
  {
    if d == 0 { assert DigitChar(d) == '0'; }
    else if d == 1 { assert DigitChar(d) == '1'; }
    else if d == 2 { assert DigitChar(d) == '2'; }
    else if d == 3 { assert DigitChar(d) == '3'; }
    else if d == 4 { assert DigitChar(d) == '4'; }
    else if d == 5 { assert DigitChar(d) == '5'; }
    else if d == 6 { assert DigitChar(d) == '6'; }
    else if d == 7 { assert DigitChar(d) == '7'; }
    else if d == 8 { assert DigitChar(d) == '8'; }
    else { assert DigitChar(d) == '9'; }
  }

  /** Reading back a numeral gives the number it was written from. */
  lemma {:induction false} DigitsOfNatToString(n: nat)
    ensures DigitsValue(NatToString(n)) == n
    decreases n
  {
    DigitCharValue(n % 10);
    var s := NatToString(n);
    if n < 10 {
      assert s == [DigitChar(n)];
      assert s[..0] == [];
    } else {
      DigitsOfNatToString(n / 10);
      var init := NatToString(n / 10);
      assert s == init + [DigitChar(n % 10)];
      assert s[..|s| - 1] == init;
      assert s[|s| - 1] == DigitChar(n % 10);
      assert DigitsValue(s) == DigitsValue(init) * 10 + n % 10;
    }
  }

  lemma NatToStringInjective()
    ensures forall i: nat, j: nat :: NatToString(i) == NatToString(j) ==> i == j
  {
    forall i: nat, j: nat | NatToString(i) == NatToString(j) ensures i == j {
      DigitsOfNatToString(i);
      DigitsOfNatToString(j);
    }
  }

  /** The largest array index JavaScript allows (2^32 - 2). */
  const MaxArrayIndex: nat := 4294967294

  /** The array index a property name denotes: a canonical decimal numeral
      (no sign, no leading zero except "0" itself) not above MaxArrayIndex. */
  function ParseIndex(k: string): (r: Option<nat>)
    ensures r.Some? ==> r.value <= MaxArrayIndex
    ensures r.Some? <==> |k| > 0 && AllDigits(k) && (|k| == 1 || k[0] != '0') && DigitsValue(k) <= MaxArrayIndex
    ensures r.Some? ==> r.value == DigitsValue(k)
  {
    if |k| == 0 || !AllDigits(k) || (|k| > 1 && k[0] == '0') then None
    else if DigitsValue(k) <= MaxArrayIndex then Some(DigitsValue(k))
    else None
  }

  /** The numeral of an array index is a property name denoting that index,
      so `v[String(i)]` and `v[i]` are the same access. */
  lemma IndexRoundTrip(i: nat)
    requires i <= MaxArrayIndex
    ensures ParseIndex(NatToString(i)) == Some(i)
  {
    DigitsOfNatToString(i);
    if i < 10 {
      assert NatToString(i) == [DigitChar(i)];
    }
  }

  // ---------------------------------------------------------------------------
  // Property access

  /** `v[k]` for a value that is not null or undefined (callers check that;
      reading a property of null or undefined throws). Inherited prototype
      members (`toString`, `constructor`, ...) are not part of the model. */
  function Prop(v: Value, k: string): Value {
    match v
    case Obj(m) => if k in m then m[k] else Undefined
    case Arr(xs) =>
      if k == "length" then Num(|xs|)
      else if ParseIndex(k).Some? && ParseIndex(k).value < |xs| then xs[ParseIndex(k).value]
      else Undefined
    case Str(s) =>
      if k == "length" then Num(|s|)
      else if ParseIndex(k).Some? && ParseIndex(k).value < |s| then Str([s[ParseIndex(k).value]])
      else Undefined
    case _ => Undefined
  }

  /** The strict-mode assignment `v[k] = x`, giving the updated container. */
  function PutProp(v: Value, k: string, x: Value): (r: Result<Value>)
    ensures r.Ok? ==> Prop(r.value, k) == x
    ensures r.Ok? <==> (v.Obj? || (v.Arr? && ParseIndex(k).Some? && ParseIndex(k).value <= |v.items|))
    ensures r.Err? && !v.Arr? ==> r.fault == TypeError
    ensures v.Obj? ==> r == Ok(Obj(v.fields[k := x]))
    ensures v.Arr? && r.Ok? ==>
      r.value == Arr(if ParseIndex(k).value < |v.items| then v.items[ParseIndex(k).value := x] else v.items + [x])
  {
    match v
    case Obj(m) => Ok(Obj(m[k := x]))
    case Arr(xs) =>
      var i := ParseIndex(k);
      if i.Some? && i.value < |xs| then Ok(Arr(xs[i.value := x]))
      else if i.Some? && i.value == |xs| then Ok(Arr(xs + [x]))
      else Err(Unsupported)
    case _ => Err(TypeError)
  }

  /** Own enumerable properties copied by object spread `{...v}`. */
  function Spread(v: Value): map<string, Value> {
    match v
    case Obj(m) => m
    case Arr(xs) =>
      NatToStringInjective();
      map i | 0 <= i < |xs| :: NatToString(i) := xs[i]
    case Str(s) =>
      NatToStringInjective();
      map i | 0 <= i < |s| :: NatToString(i) := Str([s[i]])
    case _ => map[]
  }

  /** `{...a, ...b}`: the properties of both, those of `b` winning. */
  function Merge(a: Value, b: Value): (r: Value)
    ensures r.Obj?
    ensures forall k :: k in r.fields <==> k in Spread(a) || k in Spread(b)
    ensures forall k :: k in Spread(b) ==> r.fields[k] == Spread(b)[k]
    ensures forall k :: k in Spread(a) && k !in Spread(b) ==> r.fields[k] == Spread(a)[k]
  {
    Obj(Spread(a) + Spread(b))
  }

  // ---------------------------------------------------------------------------
  // String conversion

  /** `String(v)`, as used for property keys and template literals. */
  function JsString(v: Value): string
    decreases v
  {
    match v
    case Undefined => "undefined"
    case Null => "null"
    case Bool(b) => if b then "true" else "false"
    case Num(n) => IntToString(n)
    case Str(s) => s
    case Obj(_) => "[object Object]"
    case Arr(xs) =>
      // Array.prototype.join(","): null and undefined elements print as "".
      JoinWith(seq(|xs|, i requires 0 <= i < |xs| => if Nullish(xs[i]) then "" else JsString(xs[i])), ',')
  }

  // ---------------------------------------------------------------------------
  // Splitting and joining on a separator character

  /** `s.split(sep)` for a one-character separator. */
  function Split(s: string, sep: char): (parts: seq<string>)
    ensures |parts| >= 1
    ensures forall i :: 0 <= i < |parts| ==> sep !in parts[i]
    decreases |s|
  {
    if |s| == 0 then [""]
    else
      var rest := Split(s[1..], sep);
      if s[0] == sep then [""] + rest
      else [[s[0]] + rest[0]] + rest[1..]
  }

  /** A string without the separator splits into itself alone. */
  lemma SplitWithoutSep(s: string, sep: char)
    ensures sep !in s ==> Split(s, sep) == [s]
  {
    if sep !in s {
      SplitPrefix(s, "", sep);
      assert s + "" == s;
    }
  }

  /** `parts.join(sep)` for a non-empty list. */
  function Join(parts: seq<string>, sep: char): string
    requires |parts| >= 1
    decreases |parts|
  {
    if |parts| == 1 then parts[0] else parts[0] + [sep] + Join(parts[1..], sep)
  }

  /** `parts.join(sep)` for any list (the empty list joins to ""). */
  function JoinWith(parts: seq<string>, sep: char): string {
    if |parts| == 0 then "" else Join(parts, sep)
  }

  /** Every character of a piece occurs in the split string. */
  lemma {:induction false} SplitPieces(s: string, sep: char)
    ensures forall i :: 0 <= i < |Split(s, sep)| ==> forall x :: x in Split(s, sep)[i] ==> x in s
    decreases |s|
  {
    if |s| > 0 {
      SplitPieces(s[1..], sep);
      var rest := Split(s[1..], sep);
      var parts := Split(s, sep);
      assert forall x :: x in s[1..] ==> x in s;
      if s[0] == sep {
        assert parts == [""] + rest;
        assert forall i :: 1 <= i < |parts| ==> parts[i] == rest[i - 1];
      } else {
        assert parts == [[s[0]] + rest[0]] + rest[1..];
        assert forall i :: 1 <= i < |parts| ==> parts[i] == rest[i];
        assert forall x :: x in parts[0] ==> x == s[0] || x in rest[0];
      }
    }
  }

  /** Joining the pieces of a split gives back the original string. */
  lemma {:induction false} JoinSplit(s: string, sep: char)
    ensures Join(Split(s, sep), sep) == s
    decreases |s|
  {
    if |s| > 0 {
      var rest := Split(s[1..], sep);
      JoinSplit(s[1..], sep);
      if s[0] == sep {
        assert Split(s, sep) == [""] + rest;
        assert Join([""] + rest, sep) == "" + [sep] + Join(rest, sep);
        assert s == [s[0]] + s[1..];
      } else {
        var parts := Split(s, sep);
        assert parts == [[s[0]] + rest[0]] + rest[1..];
        if |rest| == 1 {
          assert Join(parts, sep) == [s[0]] + rest[0];
          assert Join(rest, sep) == rest[0];
        } else {
          assert Join(rest, sep) == rest[0] + [sep] + Join(rest[1..], sep);
          assert parts[1..] == rest[1..];
          assert Join(parts, sep) == [s[0]] + rest[0] + [sep] + Join(rest[1..], sep);
        }
        assert s == [s[0]] + s[1..];
      }
    }
  }

  /** A piece free of the separator stays glued to whatever follows it. */
  lemma {:induction false} SplitPrefix(a: string, t: string, sep: char)
    requires sep !in a
    ensures Split(a + t, sep) == [a + Split(t, sep)[0]] + Split(t, sep)[1..]
    decreases |a|
  {
    if |a| > 0 {
      assert (a + t)[1..] == a[1..] + t;
      assert (a + t)[0] == a[0];
      SplitPrefix(a[1..], t, sep);
      assert [a[0]] + (a[1..] + Split(t, sep)[0]) == a + Split(t, sep)[0];
    } else {
      var parts := Split(t, sep);
      assert a + t == t;
      assert a + parts[0] == parts[0];
      assert parts == [parts[0]] + parts[1..];
    }
  }

  /** Splitting a join of separator-free pieces gives back the pieces. */
  lemma {:induction false} SplitJoin(parts: seq<string>, sep: char)
    requires |parts| >= 1
    requires forall i :: 0 <= i < |parts| ==> sep !in parts[i]
    ensures Split(Join(parts, sep), sep) == parts
    decreases |parts|
  {
    if |parts| == 1 {
      SplitPrefix(parts[0], "", sep);
      assert parts[0] + "" == parts[0];
    } else {
      var tail := [sep] + Join(parts[1..], sep);
      assert Join(parts, sep) == parts[0] + tail;
      SplitPrefix(parts[0], tail, sep);
      SplitJoin(parts[1..], sep);
      assert tail[1..] == Join(parts[1..], sep);
      assert Split(tail, sep) == [""] + parts[1..];
      assert parts[0] + "" == parts[0];
      assert parts == [parts[0]] + parts[1..];
    }
  }
}
