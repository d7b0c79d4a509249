/** JavaScript values as the script sees them once JSON.parse has run, and the
    ordered objects they build at run time.

    A parsed object keeps its members as they appear in the text. The
    JavaScript object built from them is a `Dict`: its own property names in
    enumeration order and their values. Building a `Dict` from members copies
    them one by one, as JSON.parse and object spread (`{...x}`) do, in
    insertion order: a name seen before keeps its place and takes the later
    value. */
module JsonValues {
  import opened Common

  datatype Json =
    | Null
    | Bool(b: bool)
    | Num(n: real)
    | Str(s: string)
    | Arr(items: seq<Json>)
    | Obj(members: seq<(string, Json)>)

  /** The result of reading a property: `undefined` when there is none. */
  datatype Prop = Undefined | Defined(value: Json)

  /** A JavaScript object: property names in enumeration order, values by name. */
  datatype Dict<V> = Dict(keys: seq<string>, vals: map<string, V>) {
    ghost predicate Valid() {
      && Distinct(keys)
      && forall k :: k in vals <==> k in keys
    }
  }

  function EmptyDict<V>(): (d: Dict<V>)
    ensures d.Valid() && d.keys == [] && d.vals == map[]
  {
    Dict([], map[])
  }

  /** The assignment `o[k] = v`: an existing name keeps its place, a new one goes last. */
  function Put<V>(d: Dict<V>, k: string, v: V): (r: Dict<V>)
    ensures d.Valid() ==> r.Valid()
  {
    if k in d.vals then Dict(d.keys, d.vals[k := v]) else Dict(d.keys + [k], d.vals[k := v])
  }

  /** The value the object built from `ms` holds under `k`: the last member named `k`. */
  function Lookup<V>(ms: seq<(string, V)>, k: string): Option<V> {
    if ms == [] then None
    else if ms[|ms| - 1].0 == k then Some(ms[|ms| - 1].1)
    else Lookup(ms[..|ms| - 1], k)
  }

  /** Copies the members `ms`, in order, into `d`. */
  function PutAll<V>(d: Dict<V>, ms: seq<(string, V)>): (r: Dict<V>)
    ensures d.Valid() ==> r.Valid()
    decreases |ms|
  {
    if ms == [] then d
    else Put(PutAll(d, ms[..|ms| - 1]), ms[|ms| - 1].0, ms[|ms| - 1].1)
  }

  /** The object JSON.parse builds from a parsed member list. */
  function ObjectOf<V>(ms: seq<(string, V)>): (r: Dict<V>)
    ensures r.Valid()
  {
    PutAll(EmptyDict(), ms)
  }

  /** The members of keys `ks` of `vals`, in the order of `ks`. */
  function Members<V>(ks: seq<string>, vals: map<string, V>): seq<(string, V)> {
    if ks == [] then []
    else
      var k := ks[|ks| - 1];
      Members(ks[..|ks| - 1], vals) + (if k in vals then [(k, vals[k])] else [])
  }

  /** The own properties of `d` in enumeration order: what JSON.stringify writes
      and what `{...d}` copies. */
  function MembersOf<V>(d: Dict<V>): seq<(string, V)> {
    Members(d.keys, d.vals)
  }

  /** The names of a member list, in order. */
  function Names<V>(ms: seq<(string, V)>): seq<string> {
    seq(|ms|, i requires 0 <= i < |ms| => ms[i].0)
  }

  /** The decimal name of an array or string index. */
  function Decimal(n: nat): string {
    if n < 10 then ["0123456789"[n]] else Decimal(n / 10) + ["0123456789"[n % 10]]
  }

  /** The own enumerable properties that `{...p}` copies: an object's members,
      a string's characters and an array's elements under their index names,
      and nothing for `undefined`, `null`, a boolean or a number. */
  function Spread(p: Prop): seq<(string, Json)> {
    match p
    case Defined(Obj(ms)) => ms
    case Defined(Str(s)) => seq(|s|, i requires 0 <= i < |s| => (Decimal(i), Str([s[i]])))
    case Defined(Arr(xs)) => seq(|xs|, i requires 0 <= i < |xs| => (Decimal(i), xs[i]))
    case _ => []
  }

  /** `Lookup` finds a value exactly when some member has that name, and the
      value it finds is that of the last such member. */
  lemma {:induction false} LookupIsLast<V>(ms: seq<(string, V)>, k: string)
    ensures Lookup(ms, k).None? <==> forall i :: 0 <= i < |ms| ==> ms[i].0 != k
    ensures Lookup(ms, k).Some? ==>
      exists i :: 0 <= i < |ms| && ms[i] == (k, Lookup(ms, k).value) && forall j :: i < j < |ms| ==> ms[j].0 != k
  {
    if ms != [] && ms[|ms| - 1].0 != k {
      var pre := ms[..|ms| - 1];
      LookupIsLast(pre, k);
      if Lookup(pre, k).Some? {
        var i :| 0 <= i < |pre| && pre[i] == (k, Lookup(pre, k).value) && forall j :: i < j < |pre| ==> pre[j].0 != k;
        assert ms[i] == pre[i];
      }
    }
  }

  /** After copying `ms` into `d`, a name is present when it was present or some
      member carries it; the last such member gives its value, and a name no
      member carries keeps its old value. */
  lemma {:induction false} PutAllAt<V>(d: Dict<V>, ms: seq<(string, V)>, k: string)
    ensures k in PutAll(d, ms).vals <==> k in d.vals || Lookup(ms, k).Some?
    ensures Lookup(ms, k).Some? ==> PutAll(d, ms).vals[k] == Lookup(ms, k).value
    ensures k in d.vals && Lookup(ms, k).None? ==> PutAll(d, ms).vals[k] == d.vals[k]
  {
    if ms != [] {
      PutAllAt(d, ms[..|ms| - 1], k);
    }
  }

  /** Copying members leaves the names already present where they were and puts
      new names after them. */
  lemma {:induction false} PutAllKeepsOrder<V>(d: Dict<V>, ms: seq<(string, V)>)
    ensures |d.keys| <= |PutAll(d, ms).keys| && PutAll(d, ms).keys[..|d.keys|] == d.keys
  {
    if ms != [] {
      var p := PutAll(d, ms[..|ms| - 1]);
      PutAllKeepsOrder(d, ms[..|ms| - 1]);
      var r := Put(p, ms[|ms| - 1].0, ms[|ms| - 1].1);
      assert r.keys[..|p.keys|] == p.keys;
      assert r.keys[..|d.keys|] == r.keys[..|p.keys|][..|d.keys|];
    }
  }

  /** When every copied name is present already, nothing is added. */
  lemma {:induction false} PutAllNoNewKeys<V>(d: Dict<V>, ms: seq<(string, V)>)
    requires forall i :: 0 <= i < |ms| ==> ms[i].0 in d.vals
    ensures PutAll(d, ms).keys == d.keys
    ensures PutAll(d, ms).vals.Keys == d.vals.Keys
  {
    if ms != [] {
      var pre := ms[..|ms| - 1];
      assert forall i :: 0 <= i < |pre| ==> pre[i] == ms[i];
      PutAllNoNewKeys(d, pre);
    }
  }

  /** Assigning a property the value it already has changes nothing. */
  lemma PutUnchanged<V>(d: Dict<V>, k: string)
    requires k in d.vals
    ensures Put(d, k, d.vals[k]) == d
  {
    assert d.vals[k := d.vals[k]] == d.vals;
  }

  /** The member listing of present keys pairs each key with its value, in order. */
  lemma {:induction false} MembersAt<V>(ks: seq<string>, vals: map<string, V>)
    requires forall i :: 0 <= i < |ks| ==> ks[i] in vals
    ensures |Members(ks, vals)| == |ks|
    ensures forall i :: 0 <= i < |ks| ==> Members(ks, vals)[i] == (ks[i], vals[ks[i]])
  {
    if ks != [] {
      var pre := ks[..|ks| - 1];
      assert forall i :: 0 <= i < |pre| ==> pre[i] == ks[i];
      MembersAt(pre, vals);
    }
  }

  /** In a valid object, the member listing finds exactly the object's properties. */
  lemma LookupMembers<V>(d: Dict<V>, k: string)
    requires d.Valid()
    ensures Lookup(MembersOf(d), k) == if k in d.vals then Some(d.vals[k]) else None
  {
    var ms := MembersOf(d);
    MembersAt(d.keys, d.vals);
    LookupIsLast(ms, k);
    if k in d.vals {
      var i :| 0 <= i < |d.keys| && d.keys[i] == k;
      assert ms[i].0 == k;
    }
  }

  /** Copying one more member is one more assignment. */
  lemma PutAllSnoc<V>(d: Dict<V>, ms: seq<(string, V)>, k: string, v: V)
    ensures PutAll(d, ms + [(k, v)]) == Put(PutAll(d, ms), k, v)
  {
    var ms' := ms + [(k, v)];
    assert ms'[..|ms'| - 1] == ms;
  }

  /** Copying the member listing of distinct present names into an empty
      object gives those names in the same order. */
  lemma {:induction false} PutAllMembersKeys<V>(ks: seq<string>, vals: map<string, V>)
    requires Distinct(ks) && forall i :: 0 <= i < |ks| ==> ks[i] in vals
    ensures PutAll(EmptyDict(), Members(ks, vals)).keys == ks
  {
    if ks != [] {
      var pre, k := ks[..|ks| - 1], ks[|ks| - 1];
      assert ks == pre + [k];
      assert Distinct(pre) && forall i :: 0 <= i < |pre| ==> pre[i] in vals by {
        assert forall i :: 0 <= i < |pre| ==> pre[i] == ks[i];
      }
      PutAllMembersKeys(pre, vals);
      var mpre := Members(pre, vals);
      assert Members(ks, vals) == mpre + [(k, vals[k])];
      var r := PutAll(EmptyDict<V>(), mpre);
      assert k !in r.vals by {
        forall i | 0 <= i < |pre| ensures pre[i] != k {
          assert ks[i] != ks[|ks| - 1];
        }
      }
      PutAllSnoc(EmptyDict(), mpre, k, vals[k]);
    }
  }

  /** Building an object from the member listing of a valid object gives it back:
      JSON.parse undoes JSON.stringify on objects. */
  lemma ObjectOfMembers<V>(d: Dict<V>)
    requires d.Valid()
    ensures ObjectOf(MembersOf(d)) == d
  {
    var r := ObjectOf(MembersOf(d));
    PutAllMembersKeys(d.keys, d.vals);
    forall k
      ensures k in r.vals <==> k in d.vals
      ensures k in r.vals ==> r.vals[k] == d.vals[k]
    {
      ObjectOfMembersAt(d, k);
    }
    assert r.vals == d.vals;
  }

  /** `ObjectOfMembers` for one name. */
  lemma ObjectOfMembersAt<V>(d: Dict<V>, k: string)
    requires d.Valid()
    ensures k in ObjectOf(MembersOf(d)).vals <==> k in d.vals
    ensures k in d.vals ==> ObjectOf(MembersOf(d)).vals[k] == d.vals[k]
  {
    PutAllAt(EmptyDict(), MembersOf(d), k);
    LookupMembers(d, k);
  }

  /** Copying the same members twice has the effect of copying them once. */
  lemma PutAllTwice<V>(d: Dict<V>, ms: seq<(string, V)>)
    ensures PutAll(PutAll(d, ms), ms) == PutAll(d, ms)
  {
    var once := PutAll(d, ms);
    var twice := PutAll(once, ms);
    forall i | 0 <= i < |ms| ensures ms[i].0 in once.vals {
      LookupIsLast(ms, ms[i].0);
      PutAllAt(d, ms, ms[i].0);
    }
    PutAllNoNewKeys(once, ms);
    forall k | k in twice.vals ensures twice.vals[k] == once.vals[k] {
      PutAllAt(d, ms, k);
      PutAllAt(once, ms, k);
    }
    assert twice.vals == once.vals;
  }

  ghost predicate DistinctNames<V>(ms: seq<(string, V)>) {
    forall i, j :: 0 <= i < j < |ms| ==> ms[i].0 != ms[j].0
  }

  lemma DistinctNamesPrefix<V>(ms: seq<(string, V)>)
    requires DistinctNames(ms) && ms != []
    ensures DistinctNames(ms[..|ms| - 1])
    ensures forall i :: 0 <= i < |ms| - 1 ==> ms[i].0 != ms[|ms| - 1].0
  {
    var pre := ms[..|ms| - 1];
    forall i, j | 0 <= i < j < |pre| ensures pre[i].0 != pre[j].0 {
      assert pre[i] == ms[i] && pre[j] == ms[j];
    }
  }

  /** Parsing members with distinct names keeps their names in order. */
  lemma {:induction false} ObjectOfKeys<V>(ms: seq<(string, V)>)
    requires DistinctNames(ms)
    ensures |ObjectOf(ms).keys| == |ms|
    ensures forall i :: 0 <= i < |ms| ==> ObjectOf(ms).keys[i] == ms[i].0
  {
    if ms != [] {
      var pre, k := ms[..|ms| - 1], ms[|ms| - 1].0;
      DistinctNamesPrefix(ms);
      ObjectOfKeys(pre);
      var p := ObjectOf(pre);
      assert k !in p.vals by {
        assert k !in p.keys by {
          forall i | 0 <= i < |pre| ensures p.keys[i] != k {
            assert p.keys[i] == ms[i].0;
          }
        }
      }
      assert ObjectOf(ms).keys == p.keys + [k];
    }
  }

  /** Parsing members with distinct names gives each name its member's value. */
  lemma ObjectOfDistinctAt<V>(ms: seq<(string, V)>, i: nat)
    requires DistinctNames(ms) && i < |ms|
    ensures ms[i].0 in ObjectOf(ms).vals && ObjectOf(ms).vals[ms[i].0] == ms[i].1
  {
    var k := ms[i].0;
    LookupIsLast(ms, k);
    PutAllAt(EmptyDict(), ms, k);
    var j :| 0 <= j < |ms| && ms[j] == (k, Lookup(ms, k).value) && forall l :: j < l < |ms| ==> ms[l].0 != k;
    assert ms[j].0 == ms[i].0;
  }

  lemma DecimalLength(n: nat)
    ensures 1 <= |Decimal(n)| && (n >= 10 ==> 2 <= |Decimal(n)|)
  {
    if n >= 10 {
      DecimalLength(n / 10);
    }
  }

  lemma DigitInjective(a: nat, b: nat)
    requires a < 10 && b < 10 && "0123456789"[a] == "0123456789"[b]
    ensures a == b
  {
  }

  /** Different indices have different decimal names. */
  lemma {:induction false} DecimalInjective(m: nat, n: nat)
    requires Decimal(m) == Decimal(n)
    ensures m == n
  {
    DecimalLength(m);
    DecimalLength(n);
    if m < 10 {
      assert n < 10;
      assert Decimal(m)[0] == "0123456789"[m] && Decimal(n)[0] == "0123456789"[n];
      DigitInjective(m, n);
    } else {
      assert n >= 10;
      var dm, dn := Decimal(m / 10), Decimal(n / 10);
      assert Decimal(m) == dm + ["0123456789"[m % 10]];
      assert Decimal(n) == dn + ["0123456789"[n % 10]];
      assert |dm| == |dn|;
      assert dm == Decimal(m)[..|dm|] && dn == Decimal(n)[..|dn|];
      DecimalInjective(m / 10, n / 10);
      assert Decimal(m)[|dm|] == "0123456789"[m % 10] && Decimal(n)[|dn|] == "0123456789"[n % 10];
      DigitInjective(m % 10, n % 10);
    }
  }

  /** Index-named members never repeat a name. */
  lemma IndexedNamesDistinct<V>(ms: seq<(string, V)>)
    requires forall i :: 0 <= i < |ms| ==> ms[i].0 == Decimal(i)
    ensures DistinctNames(ms)
  {
    forall i, j | 0 <= i < j < |ms| ensures ms[i].0 != ms[j].0 {
      if ms[i].0 == ms[j].0 {
        DecimalInjective(i, j);
      }
    }
  }

  /** `{..."ab"}` is `{"0": "a", "1": "b"}`: spreading a string builds an object
      with one property per character, named by its index, in index order. */
  lemma StringSpreadObject(s: string)
    ensures ObjectOf(Spread(Defined(Str(s)))).keys == seq(|s|, i requires 0 <= i => Decimal(i))
    ensures forall i :: 0 <= i < |s| ==>
      Decimal(i) in ObjectOf(Spread(Defined(Str(s)))).vals &&
      ObjectOf(Spread(Defined(Str(s)))).vals[Decimal(i)] == Str([s[i]])
  {
    var ms := Spread(Defined(Str(s)));
    IndexedNamesDistinct(ms);
    ObjectOfKeys(ms);
    forall i | 0 <= i < |s| ensures Decimal(i) in ObjectOf(ms).vals && ObjectOf(ms).vals[Decimal(i)] == Str([s[i]]) {
      ObjectOfDistinctAt(ms, i);
    }
  }

  /** Spreading an array builds an object with one property per element,
      named by its index, in index order. */
  lemma ArraySpreadObject(xs: seq<Json>)
    ensures ObjectOf(Spread(Defined(Arr(xs)))).keys == seq(|xs|, i requires 0 <= i => Decimal(i))
    ensures forall i :: 0 <= i < |xs| ==>
      Decimal(i) in ObjectOf(Spread(Defined(Arr(xs)))).vals &&
      ObjectOf(Spread(Defined(Arr(xs)))).vals[Decimal(i)] == xs[i]
  {
    var ms := Spread(Defined(Arr(xs)));
    IndexedNamesDistinct(ms);
    ObjectOfKeys(ms);
    forall i | 0 <= i < |xs| ensures Decimal(i) in ObjectOf(ms).vals && ObjectOf(ms).vals[Decimal(i)] == xs[i] {
      ObjectOfDistinctAt(ms, i);
    }
  }
}
