// The string and path helpers of Go's standard library that the models need.
module Strings {

  datatype Option<+T> = None | Some(value: T)

  function Lookup<K, V>(m: map<K, V>, key: K): Option<V> {
    if key in m then Some(m[key]) else None
  }

  // The map that holds, on the given keys, the values that are there.
  function Gather<K(!new), V>(keys: set<K>, value: K -> Option<V>): (out: map<K, V>)
    ensures forall key :: Lookup(out, key) == if key in keys then value(key) else None
  {
    map key | key in keys && value(key).Some? :: value(key).value
  }

  function Elements<T>(values: seq<T>): set<T> {
    set value | value in values
  }

  lemma LookupExtensional<K, V>(left: map<K, V>, right: map<K, V>)
    requires forall key :: Lookup(left, key) == Lookup(right, key)
    ensures left == right
  {
    forall key: K
      ensures key in left <==> key in right
      ensures key in left && key in right ==> left[key] == right[key]
    {
      assert Lookup(left, key) == Lookup(right, key);
    }
  }

  // No sequence of the set is longer.
  ghost function Longest<T>(items: set<seq<T>>): (length: nat)
    ensures forall item :: item in items ==> |item| <= length
  {
    if items == {} then 0
    else
      var item :| item in items;
      var rest := Longest(items - {item});
      if |item| > rest then |item| else rest
  }

  predicate HasPrefix(s: string, prefix: string) {
    prefix <= s
  }

  predicate HasSuffix(s: string, suffix: string) {
    |suffix| <= |s| && s[|s| - |suffix|..] == suffix
  }

  function TrimSuffix(s: string, suffix: string): string {
    if HasSuffix(s, suffix) then s[..|s| - |suffix|] else s
  }

  // ---- Lexicographic order, as sort.Strings uses it ----

  predicate Before(left: string, right: string) {
    if right == [] then false
    else if left == [] then true
    else if left[0] != right[0] then left[0] < right[0]
    else Before(left[1..], right[1..])
  }

  lemma {:induction false} BeforeTotal(left: string, right: string)
    ensures left == right <==> !Before(left, right) && !Before(right, left)
  {
    if left != [] && right != [] && left[0] == right[0] {
      BeforeTotal(left[1..], right[1..]);
      assert left == [left[0]] + left[1..] && right == [right[0]] + right[1..];
    }
  }

  lemma {:induction false} BeforeTransitive(a: string, b: string, c: string)
    requires Before(a, b) && Before(b, c)
    ensures Before(a, c)
  {
    if a != [] && a[0] == b[0] == c[0] {
      BeforeTransitive(a[1..], b[1..], c[1..]);
    }
  }

  predicate Ascending(keys: seq<string>) {
    forall i, j :: 0 <= i < j < |keys| ==> Before(keys[i], keys[j])
  }

  // Two ascending enumerations of the same set are the same sequence, so the
  // order in which a map yields its keys cannot show in a sorted key list.
  lemma {:induction false} AscendingUnique(left: seq<string>, right: seq<string>)
    requires Ascending(left) && Ascending(right)
    requires forall key :: key in left <==> key in right
    ensures left == right
  {
    assert left == [] || left[0] in left;
    assert right == [] || right[0] in right;
    if left != [] && right != [] {
      assert left[0] in right && right[0] in left;
      BeforeTotal(left[0], right[0]);
      var i :| 0 <= i < |right| && right[i] == left[0];
      var j :| 0 <= j < |left| && left[j] == right[0];
      if i > 0 {
        assert Before(right[0], left[0]);
        if j > 0 {
          BeforeTransitive(right[0], left[0], right[0]);
        }
        BeforeTotal(right[0], right[0]);
      }
      assert left[0] == right[0];
      forall key
        ensures key in left[1..] <==> key in right[1..]
      {
        BeforeTotal(left[0], left[0]);
        assert left[0] !in left[1..] && right[0] !in right[1..];
        assert key in left <==> key == left[0] || key in left[1..];
        assert key in right <==> key == right[0] || key in right[1..];
      }
      AscendingUnique(left[1..], right[1..]);
      assert left == [left[0]] + left[1..] && right == [right[0]] + right[1..];
    }
  }

  function Insert(keys: seq<string>, key: string): (out: seq<string>)
    requires Ascending(keys) && key !in keys
    ensures Ascending(out)
    ensures forall k :: k in out <==> k in keys || k == key
  {
    if keys == [] then [key]
    else if Before(key, keys[0]) then
      assert forall k | k in keys && k != keys[0] :: Before(key, k) by {
        forall k | k in keys && k != keys[0] ensures Before(key, k) {
          BeforeTransitive(key, keys[0], k);
        }
      }
      [key] + keys
    else
      BeforeTotal(key, keys[0]);
      var rest := Insert(keys[1..], key);
      assert forall k | k in rest :: Before(keys[0], k);
      assert keys == [keys[0]] + keys[1..];
      [keys[0]] + rest
  }

  // The keys of a set in ascending order.
  ghost function Sorted(keys: set<string>): (out: seq<string>)
    ensures Ascending(out)
    ensures forall k :: k in out <==> k in keys
  {
    if keys == {} then []
    else
      var key :| key in keys;
      Insert(Sorted(keys - {key}), key)
  }

  // ---- Splitting and joining ----

  function Split(s: string, separator: char): (parts: seq<string>)
    ensures |parts| >= 1
    ensures forall part :: part in parts ==> separator !in part
  {
    if s == [] then [[]]
    else
      var rest := Split(s[1..], separator);
      assert rest[0] in rest;
      if s[0] == separator then [[]] + rest else [[s[0]] + rest[0]] + rest[1..]
  }

  function Join(parts: seq<string>, separator: char): string {
    if parts == [] then []
    else if |parts| == 1 then parts[0]
    else parts[0] + [separator] + Join(parts[1..], separator)
  }

  lemma {:induction false} SplitConcat(a: string, b: string, separator: char)
    ensures Split(a + [separator] + b, separator) == Split(a, separator) + Split(b, separator)
  {
    if a == "" {
      assert a + [separator] + b == [separator] + b;
    } else {
      assert (a + [separator] + b)[1..] == a[1..] + [separator] + b;
      SplitConcat(a[1..], b, separator);
    }
  }

  lemma {:induction false} SplitWhole(s: string, separator: char)
    requires separator !in s
    ensures Split(s, separator) == [s]
  {
    if s != "" {
      SplitWhole(s[1..], separator);
      assert s == [s[0]] + s[1..];
    }
  }

  // Joining undoes splitting, and splitting undoes joining parts without a separator.
  lemma {:induction false} JoinSplit(s: string, separator: char)
    ensures Join(Split(s, separator), separator) == s
  {
    if s != "" {
      var rest := Split(s[1..], separator);
      JoinSplit(s[1..], separator);
      if s[0] == separator {
        assert ([[]] + rest)[1..] == rest;
      } else {
        var parts := [[s[0]] + rest[0]] + rest[1..];
        if |rest| > 1 {
          assert parts[1..] == rest[1..];
        }
      }
    }
  }

  lemma {:induction false} SplitJoin(parts: seq<string>, separator: char)
    requires parts != [] && forall i :: 0 <= i < |parts| ==> separator !in parts[i]
    ensures Split(Join(parts, separator), separator) == parts
  {
    SplitWhole(parts[0], separator);
    if |parts| > 1 {
      SplitJoin(parts[1..], separator);
      SplitConcat(parts[0], Join(parts[1..], separator), separator);
      assert parts == [parts[0]] + parts[1..];
    }
  }

  // The white space of Unicode.
  predicate IsSpace(c: char) {
    var code := c as int;
    || 9 <= code <= 13 || code == 32 || code == 0x85 || code == 0xA0 || code == 0x1680 || 0x2000 <= code <= 0x200A
    || code == 0x2028 || code == 0x2029 || code == 0x202F || code == 0x205F || code == 0x3000
  }

  // Nothing is left after strings.TrimSpace.
  predicate IsBlank(s: string) {
    forall i :: 0 <= i < |s| ==> IsSpace(s[i])
  }

  // ---- Paths by their segments ----

  predicate IsProper(segment: string) {
    segment != "" && segment != "." && segment != ".."
  }

  predicate AllProper(segments: seq<string>) {
    forall k :: 0 <= k < |segments| ==> IsProper(segments[k])
  }

  // The path is made of segments of which none is empty, "." or "..".
  predicate IsMadeOf(path: string, segments: seq<string>) {
    && segments != [] && path == Join(segments, '/')
    && forall k :: 0 <= k < |segments| ==> segments[k] !in {"", ".", ".."} && '/' !in segments[k]
  }

  lemma MadeOfExactly(path: string)
    ensures (exists segments :: IsMadeOf(path, segments)) <==> AllProper(Split(path, '/'))
  {
    JoinSplit(path, '/');
    if segments :| IsMadeOf(path, segments) {
      SplitJoin(segments, '/');
    }
    if AllProper(Split(path, '/')) {
      var parts := Split(path, '/');
      forall k | 0 <= k < |parts|
        ensures parts[k] !in {"", ".", ".."} && '/' !in parts[k]
      {
        assert parts[k] in parts;
      }
      assert IsMadeOf(path, parts);
    }
  }
}
