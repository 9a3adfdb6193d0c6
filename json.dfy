/** JSON values as the Notion client hands them over, Python truthiness,
    `str.split(".")`, `int(key)` and the dotted-path lookup `safe_get`. */
module Json {

  /** A decoded JSON value. Python's `None` is `JNull`. */
  datatype Json =
    | JNull
    | JBool(b: bool)
    | JInt(n: int)
    | JStr(s: string)
    | JArr(items: seq<Json>)
    | JObj(fields: map<string, Json>)

  /** Python truthiness: `None`, `False`, `0`, `""`, `[]` and `{}` are false. */
  predicate Truthy(v: Json) {
    match v
    case JNull => false
    case JBool(b) => b
    case JInt(n) => n != 0
    case JStr(s) => s != ""
    case JArr(a) => |a| != 0
    case JObj(m) => |m| != 0
  }

  /** The falsy values are exactly Python's six empty or zero values. */
  lemma FalsyValues(v: Json)
    ensures !Truthy(v) <==> v in {JNull, JBool(false), JInt(0), JStr(""), JArr([]), JObj(map[])}
  {
    if v.JArr? && !Truthy(v) {
      assert v.items == [];
    }
    if v.JObj? && !Truthy(v) {
      assert v.fields == map[];
    }
  }

  // ---------------------------------------------------------------------------
  // s.split(".")
  // ---------------------------------------------------------------------------

  /** Python's `s.split(".")`: the pieces between dots, empty ones included,
      so the result always has at least one piece and none contains a dot. */
  function Split(s: string): (r: seq<string>)
    ensures |r| >= 1
    ensures forall t :: 0 <= t < |r| ==> '.' !in r[t]
  {
    if s == [] then [[]]
    else
      var rest := Split(s[1..]);
      if s[0] == '.' then [[]] + rest
      else [[s[0]] + rest[0]] + rest[1..]
  }

  /** `".".join(keys)`, the inverse of `Split`. */
  function Join(keys: seq<string>): string
    requires |keys| >= 1
  {
    if |keys| == 1 then keys[0] else keys[0] + "." + Join(keys[1..])
  }

  /** A dot-free prefix extends the first piece of the split. */
  lemma {:induction false} SplitDotFreePrefix(head: string, rest: string)
    requires '.' !in head
    ensures Split(head + rest) == [head + Split(rest)[0]] + Split(rest)[1..]
  {
    if head == [] {
      assert head + rest == rest;
      assert head + Split(rest)[0] == Split(rest)[0];
      assert Split(rest) == [Split(rest)[0]] + Split(rest)[1..];
    } else {
      assert (head + rest)[1..] == head[1..] + rest;
      SplitDotFreePrefix(head[1..], rest);
      assert [head[0]] + (head[1..] + Split(rest)[0]) == head + Split(rest)[0];
    }
  }

  /** Splitting a joined path gives back its keys. */
  lemma {:induction false} SplitJoin(keys: seq<string>)
    requires |keys| >= 1
    requires forall t :: 0 <= t < |keys| ==> '.' !in keys[t]
    ensures Split(Join(keys)) == keys
  {
    if |keys| == 1 {
      SplitDotFreePrefix(keys[0], "");
      assert keys[0] + "" == keys[0];
    } else {
      SplitJoin(keys[1..]);
      var tail := "." + Join(keys[1..]);
      assert Join(keys) == keys[0] + tail;
      SplitDotFreePrefix(keys[0], tail);
      assert tail[1..] == Join(keys[1..]);
      assert Split(tail) == [[]] + keys[1..];
      assert keys[0] + [] == keys[0];
      assert keys == [keys[0]] + keys[1..];
    }
  }

  /** Joining the pieces of a split gives back the string. */
  lemma {:induction false} JoinSplit(s: string)
    ensures Join(Split(s)) == s
  {
    if s != [] {
      JoinSplit(s[1..]);
      var rest := Split(s[1..]);
      if s[0] == '.' {
        assert ([[]] + rest)[1..] == rest;
        assert s == [] + "." + s[1..];
      } else {
        var r := [[s[0]] + rest[0]] + rest[1..];
        if |rest| == 1 {
          assert s == [s[0]] + rest[0];
        } else {
          assert r[1..] == rest[1..];
          assert Join(rest) == rest[0] + "." + Join(rest[1..]);
          assert s == [s[0]] + rest[0] + "." + Join(rest[1..]);
        }
      }
    }
  }

  // ---------------------------------------------------------------------------
  // int(key)
  // ---------------------------------------------------------------------------

  predicate IsDigit(c: char) { '0' <= c <= '9' }

  predicate AllDigits(s: string) { forall t :: 0 <= t < |s| ==> IsDigit(s[t]) }

  /** The strings `int()` accepts in this model: an optional sign and decimal digits. */
  predicate IsIntLiteral(s: string) {
    if |s| > 0 && (s[0] == '-' || s[0] == '+') then |s| > 1 && AllDigits(s[1..])
    else |s| > 0 && AllDigits(s)
  }

  function DigitsValue(s: string): (n: nat)
    requires AllDigits(s)
  {
    if s == [] then 0
    else DigitsValue(s[..|s| - 1]) * 10 + (s[|s| - 1] as int - '0' as int)
  }

  /** `int(s)` for a sign-and-digits literal: negative only after a minus sign. */
  function ParseInt(s: string): (n: int)
    requires IsIntLiteral(s)
    ensures s[0] == '-' ==> n <= 0
    ensures s[0] != '-' ==> n >= 0
  {
    if s[0] == '-' then 0 - DigitsValue(s[1..])
    else if s[0] == '+' then DigitsValue(s[1..])
    else DigitsValue(s)
  }

  /** `str(n)` for a natural number: its decimal digits, most significant first. */
  function Decimal(n: nat): (s: string)
    ensures |s| > 0 && AllDigits(s)
  {
    var d := ['0' + (n % 10) as char];
    if n < 10 then d else Decimal(n / 10) + d
  }

  /** `int()` reads back every decimal numeral, with or without a sign: `int(str(n)) == n`,
      `int("+" + str(n)) == n` and `int("-" + str(n)) == -n`. */
  lemma {:induction false} ParseIntDecimal(n: nat)
    ensures IsIntLiteral(Decimal(n)) && ParseInt(Decimal(n)) == n
    ensures IsIntLiteral("+" + Decimal(n)) && ParseInt("+" + Decimal(n)) == n
    ensures IsIntLiteral("-" + Decimal(n)) && ParseInt("-" + Decimal(n)) == -(n as int)
  {
    DigitsValueDecimal(n);
    var s := Decimal(n);
    assert s[0] != '-' && s[0] != '+';
    assert ("+" + s)[1..] == s;
    assert ("-" + s)[1..] == s;
  }

  lemma {:induction false} DigitsValueDecimal(n: nat)
    ensures DigitsValue(Decimal(n)) == n
  {
    var d := ['0' + (n % 10) as char];
    if n >= 10 {
      DigitsValueDecimal(n / 10);
      var s := Decimal(n / 10) + d;
      assert s[..|s| - 1] == Decimal(n / 10);
    }
  }

  /** Python list indexing `a[n]` accepts `-|a| <= n < |a|`; a negative index counts from the end. */
  predicate InRange<T>(a: seq<T>, n: int) { -|a| <= n < |a| }

  function PyIndex<T>(a: seq<T>, n: int): (x: T)
    requires InRange(a, n)
    ensures n >= 0 ==> x == a[n]
    ensures n < 0 ==> x == a[|a| + n]
  {
    if n < 0 then a[|a| + n] else a[n]
  }

  // ---------------------------------------------------------------------------
  // safe_get
  // ---------------------------------------------------------------------------

  /** Every key that the lookup would pass to `int()` is one `int()` accepts:
      the walk never raises the `ValueError` that `safe_get` does not catch. */
  predicate IntKeysOk(data: Json, keys: seq<string>)
    decreases |keys|
  {
    if keys == [] then true
    else
      match data
      case JArr(a) =>
        IsIntLiteral(keys[0]) &&
        (InRange(a, ParseInt(keys[0])) ==> IntKeysOk(PyIndex(a, ParseInt(keys[0])), keys[1..]))
      case JObj(m) => keys[0] in m ==> IntKeysOk(m[keys[0]], keys[1..])
      case _ => true
  }

  /** The value `safe_get` returns for the split path `keys`: a list is indexed by
      `int(key)`, a dict by `key`; an `IndexError`, a `KeyError` or the
      `TypeError` of indexing anything else gives `None`. */
  function Lookup(data: Json, keys: seq<string>): Json
    requires IntKeysOk(data, keys)
    decreases |keys|
  {
    if keys == [] then data
    else
      match data
      case JArr(a) =>
        var n := ParseInt(keys[0]);
        if InRange(a, n) then Lookup(PyIndex(a, n), keys[1..]) else JNull
      case JObj(m) => if keys[0] in m then Lookup(m[keys[0]], keys[1..]) else JNull
      case _ => JNull
  }

  /** `safe_get(data, path)`: walks the dot-separated keys, reassigning `data`. */
  method SafeGet(data: Json, path: string) returns (r: Json)
    requires IntKeysOk(data, Split(path))
    ensures r == Lookup(data, Split(path))
  {
    var keys := Split(path);
    var cur := data;
    var k := 0;
    while k < |keys|
      invariant 0 <= k <= |keys|
      invariant IntKeysOk(cur, keys[k..])
      invariant Lookup(cur, keys[k..]) == Lookup(data, keys)
    {
      var key := keys[k];
      assert keys[k..][1..] == keys[k + 1..];
      match cur {
        case JArr(a) =>
          var n := ParseInt(key);
          if InRange(a, n) {
            cur := PyIndex(a, n);
          } else {
            return JNull;
          }
        case JObj(m) =>
          if key in m {
            cur := m[key];
          } else {
            return JNull;
          }
        case _ =>
          return JNull;
      }
      k := k + 1;
    }
    assert keys[k..] == [];
    r := cur;
  }

  /** Once a step has failed the value is `None`, and `None` stays `None`. */
  lemma {:induction false} LookupNull(keys: seq<string>)
    ensures IntKeysOk(JNull, keys) && Lookup(JNull, keys) == JNull
  {
  }

  /** Looking up `k1 + k2` is looking up `k2` in the result of `k1`: a failure
      part-way (an early `return None`) is the same as walking on from `None`. */
  lemma {:induction false} LookupCompose(data: Json, k1: seq<string>, k2: seq<string>)
    requires IntKeysOk(data, k1 + k2)
    ensures IntKeysOk(data, k1)
    ensures IntKeysOk(Lookup(data, k1), k2)
    ensures Lookup(data, k1 + k2) == Lookup(Lookup(data, k1), k2)
    decreases |k1|
  {
    if k1 == [] {
      assert k1 + k2 == k2;
    } else {
      assert (k1 + k2)[0] == k1[0];
      assert (k1 + k2)[1..] == k1[1..] + k2;
      match data {
        case JArr(a) =>
          var n := ParseInt(k1[0]);
          if InRange(a, n) {
            LookupCompose(PyIndex(a, n), k1[1..], k2);
          } else {
            LookupNull(k2);
          }
        case JObj(m) =>
          if k1[0] in m {
            LookupCompose(m[k1[0]], k1[1..], k2);
          } else {
            LookupNull(k2);
          }
        case _ =>
          LookupNull(k2);
      }
    }
  }

  /** The docstring example, `safe_get({'a': {'b': [{'c': 1}]}}, 'a.b.0.c') == 1`,
      for any value in place of the 1: the keys of the split path (see
      `SplitExample`) lead to it. */
  lemma DocstringExample(v: Json)
    ensures
      var d := JObj(map["a" := JObj(map["b" := JArr([JObj(map["c" := v])])])]);
      var keys := ["a", "b", "0", "c"];
      IntKeysOk(d, keys) && Lookup(d, keys) == v
  {
    assert ParseInt("0") == 0;
  }

  /** `"a.b.0.c".split(".")`. */
  lemma SplitExample()
    ensures Split("a.b.0.c") == ["a", "b", "0", "c"]
  {
    var keys := ["a", "b", "0", "c"];
    SplitJoin(keys);
    assert Join(keys) == "a.b.0.c";
  }
}
