/** JSON-like values as the client builds and receives them, and the dictionary
    helpers its request shaping uses. A Python dict keeps insertion order, so a
    dictionary is a list of (key, value) entries; `None` is `Null`. */
module Json {

  datatype Option<+T> = None | Some(value: T)

  datatype Result<+T, +E> = Ok(value: T) | Err(error: E)

  newtype byte = x: int | 0 <= x < 256

  /** A decoded JSON value, or one the normaliser produced from it (`Float`,
      `Timestamp`). */
  datatype Value =
    | Null
    | Bool(b: bool)
    | Int(i: int)
    | Float(x: real)
    | Str(s: string)
    | Timestamp(t: int)
    | List(items: seq<Value>)
    | Dict(entries: seq<(string, Value)>)

  type Entries = seq<(string, Value)>

  function Keys<V>(d: seq<(string, V)>): seq<string>
  {
    seq(|d|, i requires 0 <= i < |d| => d[i].0)
  }

  /** `d[k]` / `d.get(k)`: the value stored under `k`, if any. */
  function Lookup<V>(d: seq<(string, V)>, k: string): Option<V>
  {
    if d == [] then None
    else if d[0].0 == k then Some(d[0].1)
    else Lookup(d[1..], k)
  }

  predicate HasKey<V>(d: seq<(string, V)>, k: string)
  {
    k in Keys(d)
  }

  predicate NoDuplicates<T(==)>(s: seq<T>)
  {
    forall i, j :: 0 <= i < j < |s| ==> s[i] != s[j]
  }

  /** Python's truth value of a JSON value (`if x:`, `any`, `all`). */
  predicate Truthy(v: Value)
  {
    match v
    case Null => false
    case Bool(b) => b
    case Int(i) => i != 0
    case Float(x) => x != 0.0
    case Str(s) => s != ""
    case Timestamp(_) => true
    case List(items) => items != []
    case Dict(entries) => entries != []
  }

  /** `a` is `b` with some elements left out, the rest kept in order. */
  predicate IsSubsequence<T(==)>(a: seq<T>, b: seq<T>)
  {
    if a == [] then true
    else if b == [] then false
    else if a[0] == b[0] then IsSubsequence(a[1..], b[1..])
    else IsSubsequence(a, b[1..])
  }

  /** `{k: v for k, v in d.items() if v is not None}`: the entries whose value
      is not None, exactly those, in their original order. */
  function DropNone(d: Entries): (r: Entries)
    ensures forall e :: e in r <==> e in d && e.1 != Null
    ensures IsSubsequence(r, d)
    ensures |r| <= |d|
  {
    if d == [] then []
    else if d[0].1 == Null then DropNone(d[1..])
    else
      var rest := DropNone(d[1..]);
      assert ([d[0]] + rest)[1..] == rest;
      [d[0]] + rest
  }

  /** Looking a key up in a dictionary whose keys are distinct finds the one
      entry stored under it. */
  lemma {:induction false} LookupAt<V>(d: seq<(string, V)>, i: nat)
    requires i < |d|
    requires NoDuplicates(Keys(d))
    ensures Lookup(d, d[i].0) == Some(d[i].1)
  {
    if i > 0 {
      assert Keys(d)[0] != Keys(d)[i];
      assert Keys(d[1..]) == Keys(d)[1..];
      LookupAt(d[1..], i - 1);
    }
  }

  /** A key is found exactly when it is one of the dictionary's keys. */
  lemma {:induction false} LookupFound<V>(d: seq<(string, V)>, k: string)
    ensures Lookup(d, k).Some? <==> HasKey(d, k)
  {
    if d != [] {
      assert Keys(d) == [d[0].0] + Keys(d[1..]);
      LookupFound(d[1..], k);
    }
  }

  /** Filtering None values out of a dictionary keeps exactly the keys whose
      value is not None, each with its value unchanged. */
  lemma {:induction false} DropNoneLookup(d: Entries, k: string)
    requires NoDuplicates(Keys(d))
    ensures Lookup(DropNone(d), k) == (if Lookup(d, k) == Some(Null) then None else Lookup(d, k))
  {
    if d != [] {
      assert Keys(d[1..]) == Keys(d)[1..];
      DropNoneLookup(d[1..], k);
      if d[0].0 == k && d[0].1 != Null {
        assert DropNone(d)[0] == d[0];
      } else if d[0].0 == k {
        forall j | 0 <= j < |d[1..]| ensures Keys(d[1..])[j] != k {
          assert Keys(d)[0] != Keys(d)[j + 1];
        }
        LookupMissing(d[1..], k);
        assert Lookup(DropNone(d[1..]), k) == None;
      }
    }
  }

  lemma {:induction false} LookupMissing(d: Entries, k: string)
    requires k !in Keys(d)
    ensures Lookup(d, k) == None
    ensures Lookup(DropNone(d), k) == None
  {
    if d != [] {
      assert Keys(d) == [d[0].0] + Keys(d[1..]);
      LookupMissing(d[1..], k);
    }
  }

  /** A dictionary literal whose keys are `names`, in order, each holding the
      value `value` gives it. */
  function Fields(names: seq<string>, value: string -> Value): (d: Entries)
    ensures Keys(d) == names
  {
    seq(|names|, i requires 0 <= i < |names| => (names[i], value(names[i])))
  }

  lemma {:induction false} KeysOfSubsequence(a: Entries, b: Entries)
    requires IsSubsequence(a, b)
    ensures IsSubsequence(Keys(a), Keys(b))
  {
    if a != [] && b != [] {
      assert Keys(a)[1..] == Keys(a[1..]);
      assert Keys(b)[1..] == Keys(b[1..]);
      if a[0] == b[0] {
        KeysOfSubsequence(a[1..], b[1..]);
      } else {
        KeysOfSubsequence(a, b[1..]);
        if Keys(a)[0] == Keys(b)[0] {
          SubsequenceDropHead(Keys(a), Keys(b));
        }
      }
    }
  }

  /** A subsequence of `b[1..]` is a subsequence of `b`. */
  lemma {:induction false} SubsequenceDropHead<T>(a: seq<T>, b: seq<T>)
    requires b != [] && IsSubsequence(a, b[1..])
    ensures IsSubsequence(a, b)
  {
    if a != [] && a[0] == b[0] {
      if |b| > 1 && a[0] == b[1] {
        SubsequenceDropHead(a[1..], b[1..]);
      } else {
        SubsequenceDropHead(a, b[1..]);
        SubsequenceTail(a, b[1..]);
      }
    }
  }

  lemma {:induction false} SubsequenceTail<T>(a: seq<T>, b: seq<T>)
    requires a != [] && IsSubsequence(a, b)
    ensures IsSubsequence(a[1..], b)
  {
    if b != [] {
      if a[0] == b[0] {
        SubsequenceDropHead(a[1..], b);
      } else {
        SubsequenceTail(a, b[1..]);
        SubsequenceDropHead(a[1..], b);
      }
    }
  }

  /** `d` holds exactly the names whose value is not None, in the order of
      `names`, each with its value. */
  ghost predicate ExactlyNonNull(d: Entries, names: seq<string>, value: string -> Value)
  {
    && IsSubsequence(Keys(d), names)
    && (forall k :: HasKey(d, k) <==> k in names && value(k) != Null)
    && (forall k :: k in names && value(k) != Null ==> Lookup(d, k) == Some(value(k)))
  }

  /** Dropping the None values of a dictionary literal leaves exactly the keys
      whose value is not None, in the literal's order, each with its value. */
  lemma DropNoneFields(names: seq<string>, value: string -> Value)
    requires NoDuplicates(names)
    ensures ExactlyNonNull(DropNone(Fields(names, value)), names, value)
  {
    var d := Fields(names, value);
    forall k ensures Lookup(DropNone(d), k) == (if k in names && value(k) != Null then Some(value(k)) else None) {
      DropNoneLookup(d, k);
      if k in names {
        var i :| 0 <= i < |names| && names[i] == k;
        LookupAt(d, i);
      } else {
        LookupMissing(d, k);
      }
    }
    forall k ensures HasKey(DropNone(d), k) <==> k in names && value(k) != Null {
      LookupFound(DropNone(d), k);
    }
    KeysOfSubsequence(DropNone(d), d);
  }
}
