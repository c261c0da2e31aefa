/** camelCase and snake_case renaming of strings, and of every object key of
    a JSON-like value (nested objects and arrays included), as the backend
    applies it between its API and its database columns. */
module CaseConverter {
  import opened Seqs

  predicate IsUpper(c: char) {
    'A' <= c <= 'Z'
  }

  predicate IsLower(c: char) {
    'a' <= c <= 'z'
  }

  function ToLower(c: char): (r: char)
    requires IsUpper(c)
    ensures IsLower(r) && r as int == c as int + 32
  {
    (c as int + 32) as char
  }

  function ToUpper(c: char): (r: char)
    requires IsLower(c)
    ensures IsUpper(r) && r as int == c as int - 32 && ToLower(r) == c
  {
    (c as int - 32) as char
  }

  predicate NoUpper(s: string) {
    forall i :: 0 <= i < |s| ==> !IsUpper(s[i])
  }

  function CountUpper(s: string): nat {
    if s == [] then 0 else (if IsUpper(s[0]) then 1 else 0) + CountUpper(s[1..])
  }

  /** `str.replace(/[A-Z]/g, …)`: every ASCII capital becomes '_' and its lower
      case; nothing else changes. */
  function CamelToSnake(s: string): (r: string)
    ensures NoUpper(r)
    ensures |r| == |s| + CountUpper(s)
    ensures NoUpper(s) ==> r == s
  {
    if s == [] then []
    else (if IsUpper(s[0]) then ['_', ToLower(s[0])] else [s[0]]) + CamelToSnake(s[1..])
  }

  /** `str.replace(/_([a-z])/g, …)`: scanning left to right, every '_' followed by
      an ASCII lower-case letter is replaced by that letter in upper case; other
      underscores stay. */
  function SnakeToCamel(s: string): (r: string)
    ensures |r| <= |s|
    ensures '_' !in s ==> r == s
  {
    if |s| >= 2 && s[0] == '_' && IsLower(s[1]) then [ToUpper(s[1])] + SnakeToCamel(s[2..])
    else if s == [] then []
    else [s[0]] + SnakeToCamel(s[1..])
  }

  /** Converting to snake_case twice is converting once. */
  lemma CamelToSnakeIdempotent(s: string)
    ensures CamelToSnake(CamelToSnake(s)) == CamelToSnake(s)
  {
  }

  /** snake_case back to camelCase recovers any string without underscores. */
  lemma {:induction false} SnakeToCamelInvertsCamelToSnake(s: string)
    requires '_' !in s
    ensures SnakeToCamel(CamelToSnake(s)) == s
  {
    if s != [] {
      assert '_' !in s[1..] by {
        assert forall c :: c in s[1..] ==> c in s;
      }
      SnakeToCamelInvertsCamelToSnake(s[1..]);
      InvertsOneCharacter(s[0], s[1..]);
      assert s == [s[0]] + s[1..];
    }
  }

  /** One step of the round trip: a leading character other than '_' comes back. */
  lemma {:induction false} InvertsOneCharacter(c: char, t: string)
    requires c != '_'
    ensures SnakeToCamel(CamelToSnake([c] + t)) == [c] + SnakeToCamel(CamelToSnake(t))
  {
    CamelToSnakeCons(c, t);
    var rest := CamelToSnake(t);
    if IsUpper(c) {
      SnakeToCamelJoinsLetter(ToLower(c), rest);
      assert ToUpper(ToLower(c)) == c;
    } else {
      SnakeToCamelCons(c, rest);
    }
  }

  /** camelCase back to snake_case recovers any string without capitals. */
  lemma {:induction false} CamelToSnakeInvertsSnakeToCamel(s: string)
    requires NoUpper(s)
    ensures CamelToSnake(SnakeToCamel(s)) == s
  {
    if |s| >= 2 && s[0] == '_' && IsLower(s[1]) {
      CamelToSnakeInvertsSnakeToCamel(s[2..]);
      var u := ToUpper(s[1]);
      assert ([u] + SnakeToCamel(s[2..]))[1..] == SnakeToCamel(s[2..]);
      assert s == [s[0], s[1]] + s[2..];
    } else if s != [] {
      CamelToSnakeInvertsSnakeToCamel(s[1..]);
      assert ([s[0]] + SnakeToCamel(s[1..]))[1..] == SnakeToCamel(s[1..]);
      assert s == [s[0]] + s[1..];
    }
  }

  /** Different underscore-free names get different snake_case names. */
  lemma CamelToSnakeInjective(a: string, b: string)
    requires '_' !in a && '_' !in b && a != b
    ensures CamelToSnake(a) != CamelToSnake(b)
  {
    SnakeToCamelInvertsCamelToSnake(a);
    SnakeToCamelInvertsCamelToSnake(b);
  }

  lemma CamelToSnakeCons(c: char, s: string)
    ensures CamelToSnake([c] + s) == (if IsUpper(c) then ['_', ToLower(c)] else [c]) + CamelToSnake(s)
  {
    assert ([c] + s)[1..] == s;
  }

  lemma SnakeToCamelCons(c: char, s: string)
    requires c != '_'
    ensures SnakeToCamel([c] + s) == [c] + SnakeToCamel(s)
  {
    assert ([c] + s)[1..] == s;
  }

  /** An underscore followed by a lower-case letter becomes that letter in upper case. */
  lemma {:induction false} SnakeToCamelJoinsLetter(c: char, s: string)
    requires IsLower(c)
    ensures SnakeToCamel(['_', c] + s) == [ToUpper(c)] + SnakeToCamel(s)
  {
    assert (['_', c] + s)[2..] == s;
  }

  /** An underscore not followed by a lower-case letter is kept. */
  lemma {:induction false} SnakeToCamelKeepsUnderscore(s: string)
    requires s == [] || !IsLower(s[0])
    ensures SnakeToCamel(['_'] + s) == ['_'] + SnakeToCamel(s)
  {
    assert (['_'] + s)[1..] == s;
  }

  lemma CamelToSnakeExample()
    ensures CamelToSnake("Amount") == "_amount"
  {
    assert CamelToSnake("mount") == "mount";
    CamelToSnakeCons('A', "mount");
    assert ['A'] + "mount" == "Amount";
    assert ['_', 'a'] + "mount" == "_amount";
  }

  lemma SnakeToCamelExample()
    ensures SnakeToCamel("_amount") == "Amount"
  {
    assert SnakeToCamel("mount") == "mount";
    assert "_amount"[2..] == "mount";
    assert ['A'] + "mount" == "Amount";
  }

  /** An underscore before anything but a lower-case letter is kept. */
  lemma SnakeToCamelKeepsOtherUnderscores()
    ensures SnakeToCamel("a__b_1") == "a_B_1"
  {
    assert SnakeToCamel("_1") == "_1";
    assert SnakeToCamel("_b_1") == "B_1" by {
      assert "_b_1"[2..] == "_1";
    }
    assert "a__b_1"[1..] == "__b_1" && "__b_1"[1..] == "_b_1";
  }

  /** A JSON-like value as the converters see it. Objects list their own
      enumerable properties in enumeration order. */
  datatype Json =
    | JNull
    | JUndefined
    | JDate(ms: int)
    | JString(s: string)
    | JNumber(n: int)
    | JBool(b: bool)
    | JArray(items: seq<Json>)
    | JObject(members: seq<Member<string, Json>>)

  /** A property of an object: its key and its value. */
  datatype Member<K, V> = Member(key: K, value: V)

  /** The value of property `key`, if the object has one. */
  function Get<K(==,!new), V>(ms: seq<Member<K, V>>, key: K): (r: Option<V>)
    ensures r.None? <==> forall i :: 0 <= i < |ms| ==> ms[i].key != key
  {
    if ms == [] then None
    else if ms[0].key == key then Some(ms[0].value)
    else Get(ms[1..], key)
  }

  predicate DistinctKeys<K(==,!new), V>(ms: seq<Member<K, V>>) {
    forall i, j :: 0 <= i < j < |ms| ==> ms[i].key != ms[j].key
  }

  /** `result[key] = value` on an object: an existing property keeps its place and
      gets the new value, a new one is appended, and no other property changes. */
  function Put<K(==,!new), V>(ms: seq<Member<K, V>>, key: K, value: V): (r: seq<Member<K, V>>)
    ensures Get(r, key) == Some(value)
    ensures forall k :: k != key ==> Get(r, k) == Get(ms, k)
    ensures Get(ms, key).None? ==> r == ms + [Member(key, value)]
  {
    if ms == [] then [Member(key, value)]
    else if ms[0].key == key then
      GetCons(Member(key, value), ms[1..]);
      [Member(key, value)] + ms[1..]
    else
      var rest := Put(ms[1..], key, value);
      GetCons(ms[0], rest);
      assert ms == [ms[0]] + ms[1..];
      [ms[0]] + rest
  }

  /** Assigning a property never creates a duplicate key. */
  lemma {:induction false} PutKeepsDistinct<K(!new), V>(ms: seq<Member<K, V>>, key: K, value: V)
    requires DistinctKeys(ms)
    ensures DistinctKeys(Put(ms, key, value))
  {
    if ms == [] {
    } else {
      var head, tail := ms[0], ms[1..];
      assert forall i :: 0 <= i < |tail| ==> tail[i] == ms[i + 1];
      var rest := if head.key == key then tail else Put(tail, key, value);
      var first := if head.key == key then Member(key, value) else head;
      assert Put(ms, key, value) == [first] + rest;
      if head.key != key {
        PutKeepsDistinct(tail, key, value);
        assert Get(tail, head.key).None?;
        assert Get(rest, head.key).None?;
      }
      assert forall i :: 0 <= i < |rest| ==> rest[i].key != first.key;
      var r := [first] + rest;
      forall i, j | 0 <= i < j < |r|
        ensures r[i].key != r[j].key
      {
        assert r[j] == rest[j - 1];
        if i > 0 {
          assert r[i] == rest[i - 1];
        }
      }
    }
  }

  lemma GetCons<K(!new), V>(m: Member<K, V>, ms: seq<Member<K, V>>)
    ensures forall k :: Get([m] + ms, k) == if m.key == k then Some(m.value) else Get(ms, k)
  {
    assert ([m] + ms)[1..] == ms;
  }

  /** `ms[i]` is the last property named `key`. */
  predicate IsLastWith<K(==,!new), V>(ms: seq<Member<K, V>>, i: int, key: K) {
    0 <= i < |ms| && ms[i].key == key && forall j :: i < j < |ms| ==> ms[j].key != key
  }

  /** The value of the last property named `key`: the one an object built by
      assigning the properties in order ends up with. */
  function LastValue<K(==,!new), V>(ms: seq<Member<K, V>>, key: K): (r: Option<V>)
    ensures r.None? <==> forall i :: 0 <= i < |ms| ==> ms[i].key != key
    ensures forall i :: IsLastWith(ms, i, key) ==> r == Some(ms[i].value)
  {
    if ms == [] then None
    else if ms[|ms| - 1].key == key then Some(ms[|ms| - 1].value)
    else
      var front := ms[..|ms| - 1];
      assert forall i :: IsLastWith(ms, i, key) ==> IsLastWith(front, i, key);
      LastValue(front, key)
  }

  /** The object that the assignments `result[ms[0].key] = …`, `result[ms[1].key] = …`,
      … build, in that order, from an empty object: distinct keys, each with the
      value of its last assignment; with distinct keys to begin with, `ms` itself. */
  function Assemble<K(==,!new), V>(ms: seq<Member<K, V>>): (r: seq<Member<K, V>>)
    ensures DistinctKeys(r)
    ensures forall k :: Get(r, k) == LastValue(ms, k)
    ensures DistinctKeys(ms) ==> r == ms
  {
    if ms == [] then []
    else
      var front, last := ms[..|ms| - 1], ms[|ms| - 1];
      assert ms == front + [last];
      var assembled := Assemble(front);
      PutKeepsDistinct(assembled, last.key, last.value);
      assert forall i :: 0 <= i < |front| ==> front[i] == ms[i];
      assert DistinctKeys(ms) ==> DistinctKeys(front) && Get(front, last.key).None?;
      Put(assembled, last.key, last.value)
  }

  predicate IsScalar(j: Json) {
    j.JNull? || j.JUndefined? || j.JDate? || j.JString? || j.JNumber? || j.JBool?
  }

  /** After renaming, no later member of `ms` gets the same key as `ms[i]`. */
  predicate LastAfterRename(ms: seq<Member<string, Json>>, i: int, rename: string -> string) {
    0 <= i < |ms| && forall k :: i < k < |ms| ==> rename(ms[k].key) != rename(ms[i].key)
  }

  /** The key renaming shared by toSnakeCase and toCamelCase: null, undefined,
      dates and primitives are returned as they are, arrays element by element,
      and objects become a fresh object with every key renamed by `rename` and
      every value converted. */
  function ConvertKeys(j: Json, rename: string -> string): (r: Json)
    ensures IsScalar(j) ==> r == j
    ensures j.JArray? ==> r.JArray? && |r.items| == |j.items|
                          && forall i :: 0 <= i < |j.items| ==> r.items[i] == ConvertKeys(j.items[i], rename)
    ensures j.JObject? ==> r.JObject? && DistinctKeys(r.members)
    decreases j
  {
    match j
    case JArray(items) =>
      JArray(seq(|items|, i requires 0 <= i < |items| => ConvertKeys(items[i], rename)))
    case JObject(ms) =>
      JObject(Assemble(seq(|ms|, i requires 0 <= i < |ms| => Member(rename(ms[i].key), ConvertKeys(ms[i].value, rename)))))
    case _ => j
  }

  /** toSnakeCase. */
  function ToSnakeCase(j: Json): Json {
    ConvertKeys(j, CamelToSnake)
  }

  /** toCamelCase. */
  function ToCamelCase(j: Json): Json {
    ConvertKeys(j, SnakeToCamel)
  }

  /** Every object, at any depth, has distinct keys, none containing '_'. */
  predicate CamelCaseTree(j: Json)
    decreases j
  {
    match j
    case JArray(items) => forall i :: 0 <= i < |items| ==> CamelCaseTree(items[i])
    case JObject(ms) =>
      DistinctKeys(ms) && forall i :: 0 <= i < |ms| ==> '_' !in ms[i].key && CamelCaseTree(ms[i].value)
    case _ => true
  }

  /** Converting a camelCase tree to snake_case and back gives the tree back. */
  lemma {:induction false} CaseRoundTrip(j: Json)
    requires CamelCaseTree(j)
    ensures ToCamelCase(ToSnakeCase(j)) == j
    decreases j
  {
    match j
    case JArray(items) =>
      forall i | 0 <= i < |items|
        ensures ToCamelCase(ToSnakeCase(items[i])) == items[i]
      {
        CaseRoundTrip(items[i]);
      }
      var s := ToSnakeCase(j);
      assert ToCamelCase(s).items == items;
    case JObject(ms) =>
      forall i | 0 <= i < |ms|
        ensures ToCamelCase(ToSnakeCase(ms[i].value)) == ms[i].value
      {
        CaseRoundTrip(ms[i].value);
      }
      ObjectRoundTrip(ms);
    case _ =>
  }

  /** The members of an object with every key renamed and every value converted, in order. */
  function RenameAll(ms: seq<Member<string, Json>>, rename: string -> string): (r: seq<Member<string, Json>>)
    ensures |r| == |ms|
    ensures forall i :: 0 <= i < |ms| ==> r[i] == Member(rename(ms[i].key), ConvertKeys(ms[i].value, rename))
  {
    seq(|ms|, i requires 0 <= i < |ms| => Member(rename(ms[i].key), ConvertKeys(ms[i].value, rename)))
  }

  lemma ConvertObject(ms: seq<Member<string, Json>>, rename: string -> string)
    ensures ConvertKeys(JObject(ms), rename) == JObject(Assemble(RenameAll(ms, rename)))
  {
  }

  /** A converted object has a property for exactly the renamed keys, and a
      member whose renamed key no later member shares gives its converted value. */
  lemma ConvertedObjectKeys(ms: seq<Member<string, Json>>, rename: string -> string)
    ensures var r := ConvertKeys(JObject(ms), rename).members;
            && (forall k :: Get(r, k).None? <==> forall i :: 0 <= i < |ms| ==> rename(ms[i].key) != k)
            && forall i :: LastAfterRename(ms, i, rename)
                           ==> Get(r, rename(ms[i].key)) == Some(ConvertKeys(ms[i].value, rename))
  {
    var renamed := RenameAll(ms, rename);
    ConvertObject(ms, rename);
    forall i | LastAfterRename(ms, i, rename)
      ensures IsLastWith(renamed, i, rename(ms[i].key))
    {
    }
  }

  /** The object step of the round trip, given that it holds for every value. */
  lemma ObjectRoundTrip(ms: seq<Member<string, Json>>)
    requires DistinctKeys(ms)
    requires forall i :: 0 <= i < |ms| ==> '_' !in ms[i].key && ToCamelCase(ToSnakeCase(ms[i].value)) == ms[i].value
    ensures ToCamelCase(ToSnakeCase(JObject(ms))) == JObject(ms)
  {
    var snake := RenameAll(ms, CamelToSnake);
    forall i, k | 0 <= i < k < |ms|
      ensures snake[i].key != snake[k].key
    {
      CamelToSnakeInjective(ms[i].key, ms[k].key);
    }
    ConvertObject(ms, CamelToSnake);
    assert ToSnakeCase(JObject(ms)) == JObject(snake);
    var back := RenameAll(snake, SnakeToCamel);
    forall i | 0 <= i < |ms|
      ensures back[i] == ms[i]
    {
      SnakeToCamelInvertsCamelToSnake(ms[i].key);
    }
    assert back == ms;
    ConvertObject(snake, SnakeToCamel);
  }
}
