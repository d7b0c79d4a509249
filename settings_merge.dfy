/** The settings merger (applyTheme.js lines 51-69): the settings object is
    created empty, replaced by the parsed settings file when there is one, and
    then changed in place by two property assignments: the colour
    customizations become the existing ones overridden by the theme's, and the
    accent colour becomes the theme's, whatever it was. */
module SettingsMerge {
  import opened Common
  import opened JsonValues

  const ColorCustomizations: string := "workbench.colorCustomizations"
  const PeacockColor: string := "peacock.color"

  /** `settings[k]` on the settings object. */
  function Get(d: Dict<Prop>, k: string): Prop {
    if k in d.vals then d.vals[k] else Undefined
  }

  /** `doc[k]` on a parsed, non-null document, for a name that is neither an
      array index nor `length` (both names this program reads are of that
      kind): an object answers with its last member of that name, every other
      value has no such property. */
  function Field(doc: Json, k: string): Prop {
    if doc.Obj? then (match Lookup(doc.members, k) case Some(v) => Defined(v) case None => Undefined)
    else Undefined
  }

  /** The object literal `{...a, ...b}`. */
  function SpreadMerge(a: Prop, b: Prop): (r: Dict<Json>)
    ensures r.Valid()
  {
    PutAll(ObjectOf(Spread(a)), Spread(b))
  }

  /** The entries `{...settings["workbench.colorCustomizations"]}` copies. */
  function ColorsOf(d: Dict<Prop>): seq<(string, Json)> {
    Spread(Get(d, ColorCustomizations))
  }

  /** The entries `{...theme["workbench.colorCustomizations"]}` copies. */
  function ThemeColors(theme: Json): seq<(string, Json)> {
    Spread(Field(theme, ColorCustomizations))
  }

  /** The object built at lines 60-63. */
  function MergedColors(d: Dict<Prop>, theme: Json): (r: Dict<Json>)
    ensures r.Valid()
  {
    SpreadMerge(Get(d, ColorCustomizations), Field(theme, ColorCustomizations))
  }

  /** The settings object after lines 60-66 have run on it. */
  function Applied(d: Dict<Prop>, theme: Json): (r: Dict<Prop>)
    requires d.Valid()
    ensures r.Valid()
  {
    var colors := Defined(Obj(MembersOf(MergedColors(d, theme))));
    Put(Put(d, ColorCustomizations, colors), PeacockColor, Field(theme, PeacockColor))
  }

  /** The names of `ks` whose value is not `undefined`, in order. */
  function DefinedKeys(ks: seq<string>, vals: map<string, Prop>): seq<string> {
    if ks == [] then []
    else
      var k := ks[|ks| - 1];
      DefinedKeys(ks[..|ks| - 1], vals) + (if k in vals && vals[k].Defined? then [k] else [])
  }

  /** The properties JSON.stringify writes: those whose value is not `undefined`. */
  function DefinedPart(d: Dict<Prop>): (r: Dict<Json>)
    ensures d.Valid() ==> r.Valid()
  {
    DefinedKeysMembers(d.keys, d.vals);
    Dict(DefinedKeys(d.keys, d.vals), DefinedVals(d.vals))
  }

  /** The defined values of `vals`. */
  function DefinedVals(vals: map<string, Prop>): map<string, Json> {
    map k | k in vals && vals[k].Defined? :: vals[k].value
  }

  /** `JSON.stringify(settings)` at the value level: an object of the defined
      properties, in enumeration order. */
  function Serialize(d: Dict<Prop>): Json {
    Obj(MembersOf(DefinedPart(d)))
  }

  /** A parsed object seen through property reads: every property is defined. */
  function Lift(x: Dict<Json>): (r: Dict<Prop>)
    ensures x.Valid() ==> r.Valid()
  {
    Dict(x.keys, map k | k in x.vals :: Defined(x.vals[k]))
  }

  /** `JSON.parse(settingsData)` for a settings file holding an object. */
  function Load(members: seq<(string, Json)>): (r: Dict<Prop>)
    ensures r.Valid()
  {
    Lift(ObjectOf(members))
  }

  /** The settings object of lines 51-66. */
  class Settings {
    var keys: seq<string>
    var props: map<string, Prop>

    ghost predicate Valid()
      reads this
    {
      Dict(keys, props).Valid()
    }

    function View(): Dict<Prop>
      reads this
    {
      Dict(keys, props)
    }

    /** `let settingsJson = {}` (line 51). */
    constructor Empty()
      ensures Valid() && View() == EmptyDict()
    {
      keys, props := [], map[];
    }

    /** `settingsJson = JSON.parse(settingsData)` (line 56) for an object. */
    constructor Parsed(members: seq<(string, Json)>)
      ensures Valid() && View() == Load(members)
    {
      var d := Load(members);
      keys, props := d.keys, d.vals;
    }

    /** The assignment `settingsJson[k] = v`. */
    method Assign(k: string, v: Prop)
      requires Valid()
      modifies this
      ensures Valid()
      ensures View() == Put(old(View()), k, v)
    {
      if k !in props {
        keys := keys + [k];
      }
      props := props[k := v];
    }

    /** Lines 60-66. Reading a property of a null theme throws a TypeError
        before anything is assigned; `ok` is false exactly then. */
    method ApplyTheme(theme: Json) returns (ok: bool)
      requires Valid()
      modifies this
      ensures Valid()
      ensures ok == !theme.Null?
      ensures ok ==> View() == Applied(old(View()), theme)
      ensures !ok ==> View() == old(View())
    {
      if theme.Null? {
        return false;
      }
      var colors := MergedColors(View(), theme);
      Assign(ColorCustomizations, Defined(Obj(MembersOf(colors))));
      Assign(PeacockColor, Field(theme, PeacockColor));
      ok := true;
    }
  }


  /** `{...a, ...b}` holds every name either side has; where `b` has the name it
      gives the value, and otherwise `a` does. */
  lemma SpreadMergeAt(a: Prop, b: Prop, k: string)
    ensures k in SpreadMerge(a, b).vals <==> Lookup(Spread(a), k).Some? || Lookup(Spread(b), k).Some?
    ensures Lookup(Spread(b), k).Some? ==> SpreadMerge(a, b).vals[k] == Lookup(Spread(b), k).value
    ensures Lookup(Spread(b), k).None? && Lookup(Spread(a), k).Some? ==>
      SpreadMerge(a, b).vals[k] == Lookup(Spread(a), k).value
  {
    PutAllAt(EmptyDict(), Spread(a), k);
    PutAllAt(ObjectOf(Spread(a)), Spread(b), k);
  }

  /** `{...a, ...b}` lists the names of `a` first, in their order. */
  lemma SpreadMergeOrder(a: Prop, b: Prop)
    ensures var first := ObjectOf(Spread(a)).keys;
      |first| <= |SpreadMerge(a, b).keys| && SpreadMerge(a, b).keys[..|first|] == first
  {
    PutAllKeepsOrder(ObjectOf(Spread(a)), Spread(b));
  }

  /** `DefinedKeys` keeps exactly the names whose value is defined, and no name twice. */
  lemma {:induction false} DefinedKeysMembers(ks: seq<string>, vals: map<string, Prop>)
    ensures forall k :: k in DefinedKeys(ks, vals) <==> k in ks && k in vals && vals[k].Defined?
    ensures Distinct(ks) ==> Distinct(DefinedKeys(ks, vals))
  {
    if ks != [] {
      var pre, k := ks[..|ks| - 1], ks[|ks| - 1];
      DefinedKeysMembers(pre, vals);
      assert ks == pre + [k];
      if Distinct(ks) {
        assert Distinct(pre) by {
          forall i, j | 0 <= i < j < |pre| ensures pre[i] != pre[j] {
            assert pre[i] == ks[i] && pre[j] == ks[j];
          }
        }
        assert k !in pre by {
          forall i | 0 <= i < |pre| ensures pre[i] != k {
            assert ks[i] != ks[|ks| - 1];
          }
        }
      }
    }
  }

  /** Lines 60-66 give the colour customizations the merged object and the accent
      colour the theme's value, and leave every other property as it was. */
  lemma AppliedAt(d: Dict<Prop>, theme: Json, k: string)
    requires d.Valid()
    ensures k in Applied(d, theme).vals <==> k in d.vals || k == ColorCustomizations || k == PeacockColor
    ensures Get(Applied(d, theme), k) ==
      if k == PeacockColor then Field(theme, PeacockColor)
      else if k == ColorCustomizations then Defined(Obj(MembersOf(MergedColors(d, theme))))
      else Get(d, k)
  {
    var colors := Defined(Obj(MembersOf(MergedColors(d, theme))));
    GetPut(d, ColorCustomizations, colors, k);
    GetPut(Put(d, ColorCustomizations, colors), PeacockColor, Field(theme, PeacockColor), k);
  }

  /** Reading back after an assignment. */
  lemma GetPut(d: Dict<Prop>, k: string, p: Prop, j: string)
    ensures j in Put(d, k, p).vals <==> j in d.vals || j == k
    ensures Get(Put(d, k, p), j) == if j == k then p else Get(d, j)
  {
  }

  /** Existing properties keep their order; the colour customizations and then
      the accent colour are appended when they were not there before. */
  lemma AppliedKeys(d: Dict<Prop>, theme: Json)
    requires d.Valid()
    ensures Applied(d, theme).keys ==
      d.keys + (if ColorCustomizations in d.vals then [] else [ColorCustomizations])
             + (if PeacockColor in d.vals then [] else [PeacockColor])
  {
  }

  /** Keeping the defined names distributes over concatenation. */
  lemma {:induction false} DefinedKeysAppend(a: seq<string>, b: seq<string>, vals: map<string, Prop>)
    ensures DefinedKeys(a + b, vals) == DefinedKeys(a, vals) + DefinedKeys(b, vals)
  {
    if b == [] {
      assert a + b == a;
    } else {
      var pre := b[..|b| - 1];
      assert (a + b)[..|a + b| - 1] == a + pre;
      assert (a + b)[|a + b| - 1] == b[|b| - 1];
      DefinedKeysAppend(a, pre, vals);
    }
  }

  lemma DefinedKeysOne(k: string, vals: map<string, Prop>)
    ensures DefinedKeys([k], vals) == if k in vals && vals[k].Defined? then [k] else []
  {
    assert [k][..0] == [];
  }

  /** Names whose values are all defined are all kept. */
  lemma {:induction false} DefinedKeysAll(ks: seq<string>, vals: map<string, Prop>)
    requires forall i :: 0 <= i < |ks| ==> ks[i] in vals && vals[ks[i]].Defined?
    ensures DefinedKeys(ks, vals) == ks
  {
    if ks != [] {
      var pre := ks[..|ks| - 1];
      assert forall i :: 0 <= i < |pre| ==> pre[i] == ks[i];
      DefinedKeysAll(pre, vals);
      assert ks == pre + [ks[|ks| - 1]];
    }
  }

  /** The document JSON.stringify writes lists the defined properties of the
      object in the object's order. */
  lemma SerializedNames(x: Dict<Prop>)
    requires x.Valid()
    ensures Names(Serialize(x).members) == DefinedKeys(x.keys, x.vals)
  {
    var y := DefinedPart(x);
    MembersAt(y.keys, y.vals);
  }

  /** The written settings list the existing properties first, in their order
      (those whose value is still defined), then the colour customizations
      when they are new, then the accent colour when it is new and defined. */
  lemma WrittenOrder(d: Dict<Prop>, theme: Json)
    requires d.Valid()
    ensures Names(Serialize(Applied(d, theme)).members) ==
      DefinedKeys(d.keys, Applied(d, theme).vals)
      + (if ColorCustomizations in d.vals then [] else [ColorCustomizations])
      + (if PeacockColor in d.vals || Field(theme, PeacockColor).Undefined? then [] else [PeacockColor])
  {
    var a := Applied(d, theme);
    var cc := if ColorCustomizations in d.vals then [] else [ColorCustomizations];
    var pc := if PeacockColor in d.vals then [] else [PeacockColor];
    AppliedKeys(d, theme);
    AppliedAt(d, theme, ColorCustomizations);
    AppliedAt(d, theme, PeacockColor);
    SerializedNames(a);
    DefinedKeysAppend(d.keys + cc, pc, a.vals);
    DefinedKeysAppend(d.keys, cc, a.vals);
    DefinedKeysOne(ColorCustomizations, a.vals);
    DefinedKeysOne(PeacockColor, a.vals);
  }

  /** For settings read from a file and a theme with an accent colour, the
      written settings list exactly the file's properties in the file's order,
      followed by whichever of the two managed properties are new. */
  lemma WrittenOrderLoaded(ms: seq<(string, Json)>, theme: Json)
    requires Field(theme, PeacockColor).Defined?
    ensures Names(Serialize(Applied(Load(ms), theme)).members) ==
      Load(ms).keys
      + (if ColorCustomizations in Load(ms).vals then [] else [ColorCustomizations])
      + (if PeacockColor in Load(ms).vals then [] else [PeacockColor])
  {
    var d := Load(ms);
    var a := Applied(d, theme);
    WrittenOrder(d, theme);
    forall i | 0 <= i < |d.keys| ensures d.keys[i] in a.vals && a.vals[d.keys[i]].Defined? {
      AppliedAt(d, theme, d.keys[i]);
    }
    DefinedKeysAll(d.keys, a.vals);
  }

  /** After the merge the colour customizations are an object holding every
      colour the theme names, with the theme's value; every other colour keeps
      the value it had. What each side contributes is given by the definition
      of `Spread`. */
  lemma ColorsMerged(d: Dict<Prop>, theme: Json, k: string)
    requires d.Valid()
    ensures Lookup(ThemeColors(theme), k).Some? ==>
      Lookup(ColorsOf(Applied(d, theme)), k) == Lookup(ThemeColors(theme), k)
    ensures Lookup(ThemeColors(theme), k).None? ==>
      Lookup(ColorsOf(Applied(d, theme)), k) == Lookup(ColorsOf(d), k)
  {
    var m := MergedColors(d, theme);
    AppliedAt(d, theme, ColorCustomizations);
    assert ColorsOf(Applied(d, theme)) == MembersOf(m);
    LookupMembers(m, k);
    SpreadMergeAt(Get(d, ColorCustomizations), Field(theme, ColorCustomizations), k);
  }

  /** The colours that were there keep their order and new ones come after them. */
  lemma ColorOrder(d: Dict<Prop>, theme: Json)
    requires d.Valid()
    ensures var before := ObjectOf(ColorsOf(d)).keys;
      var after := ObjectOf(ColorsOf(Applied(d, theme))).keys;
      |before| <= |after| && after[..|before|] == before
  {
    var m := MergedColors(d, theme);
    AppliedAt(d, theme, ColorCustomizations);
    assert ColorsOf(Applied(d, theme)) == MembersOf(m);
    ObjectOfMembers(m);
    SpreadMergeOrder(Get(d, ColorCustomizations), Field(theme, ColorCustomizations));
  }

  /** After the merge the accent colour is the theme's, whatever it was; when
      the theme has none, the written document has no accent colour at all. */
  lemma PeacockColorReplaced(d: Dict<Prop>, theme: Json)
    requires d.Valid()
    ensures Get(Applied(d, theme), PeacockColor) == Field(theme, PeacockColor)
    ensures Lookup(Serialize(Applied(d, theme)).members, PeacockColor) ==
      if Field(theme, PeacockColor).Defined? then Some(Field(theme, PeacockColor).value) else None
  {
    AppliedAt(d, theme, PeacockColor);
    LookupMembers(DefinedPart(Applied(d, theme)), PeacockColor);
  }

  /** Spreading the merged colours and the theme's colours again gives the
      merged colours back. */
  lemma SpreadMergeAgain(a: Prop, b: Prop)
    ensures SpreadMerge(Defined(Obj(MembersOf(SpreadMerge(a, b)))), b) == SpreadMerge(a, b)
  {
    ObjectOfMembers(SpreadMerge(a, b));
    PutAllTwice(ObjectOf(Spread(a)), Spread(b));
  }

  /** Merging the same theme into the merged object changes nothing. */
  lemma AppliedIdempotent(d: Dict<Prop>, theme: Json)
    requires d.Valid()
    ensures Applied(Applied(d, theme), theme) == Applied(d, theme)
  {
    var a := Applied(d, theme);
    AppliedAt(d, theme, ColorCustomizations);
    AppliedAt(d, theme, PeacockColor);
    SpreadMergeAgain(Get(d, ColorCustomizations), Field(theme, ColorCustomizations));
    assert MergedColors(a, theme) == MergedColors(d, theme);
    PutUnchanged(a, ColorCustomizations);
    PutUnchanged(a, PeacockColor);
  }

  lemma {:induction false} DefinedKeysOfLift(ks: seq<string>, x: Dict<Json>)
    requires forall i :: 0 <= i < |ks| ==> ks[i] in x.vals
    ensures DefinedKeys(ks, Lift(x).vals) == ks
  {
    if ks != [] {
      var pre := ks[..|ks| - 1];
      assert forall i :: 0 <= i < |pre| ==> pre[i] == ks[i];
      DefinedKeysOfLift(pre, x);
      assert ks == pre + [ks[|ks| - 1]];
    }
  }

  lemma {:induction false} DefinedKeysIgnore(ks: seq<string>, vals: map<string, Prop>, k: string, p: Prop)
    requires k !in ks
    ensures DefinedKeys(ks, vals[k := p]) == DefinedKeys(ks, vals)
  {
    if ks != [] {
      var pre := ks[..|ks| - 1];
      assert k !in pre by {
        forall i | 0 <= i < |pre| ensures pre[i] != k {
          assert pre[i] == ks[i];
        }
      }
      DefinedKeysIgnore(pre, vals, k, p);
    }
  }

  /** A name appended with the value `undefined` is not among the defined names. */
  lemma DefinedKeysAppendUndefined(ks: seq<string>, vals: map<string, Prop>, k: string)
    requires k !in ks
    ensures DefinedKeys(ks + [k], vals[k := Undefined]) == DefinedKeys(ks, vals)
  {
    var e := ks + [k];
    assert e[..|e| - 1] == ks;
    DefinedKeysIgnore(ks, vals, k, Undefined);
  }

  lemma DefinedValsIgnore(vals: map<string, Prop>, k: string)
    requires k !in vals
    ensures DefinedVals(vals[k := Undefined]) == DefinedVals(vals)
  {
    assert DefinedVals(vals[k := Undefined]).Keys == DefinedVals(vals).Keys;
  }

  /** JSON.stringify leaves out a property that was added with the value `undefined`. */
  lemma UndefinedDropped(d: Dict<Prop>, k: string)
    requires d.Valid() && k !in d.vals
    ensures DefinedPart(Put(d, k, Undefined)) == DefinedPart(d)
  {
    assert k !in d.keys;
    DefinedKeysAppendUndefined(d.keys, d.vals, k);
    DefinedValsIgnore(d.vals, k);
  }

  /** A parsed object seen through property reads, with its `undefined`s
      removed again, is the parsed object. */
  lemma DefinedPartOfLift(x: Dict<Json>)
    requires x.Valid()
    ensures DefinedPart(Lift(x)) == x
  {
    var y := Lift(x);
    DefinedKeysOfLift(x.keys, x);
    assert DefinedPart(y).vals == x.vals;
  }

  /** Writing an object out and reading it back loses nothing but `undefined`s. */
  lemma LoadSerialized(d: Dict<Prop>)
    requires d.Valid()
    ensures Load(Serialize(d).members) == Lift(DefinedPart(d))
    ensures DefinedPart(Load(Serialize(d).members)) == DefinedPart(d)
  {
    var x := DefinedPart(d);
    ObjectOfMembers(x);
    DefinedPartOfLift(x);
  }

  /** Running the script a second time with the same theme, on the settings file
      the first run wrote, writes the same document again. */
  lemma RerunWritesSame(d: Dict<Prop>, theme: Json)
    requires d.Valid()
    ensures var once := Serialize(Applied(d, theme));
      Serialize(Applied(Load(once.members), theme)) == once
  {
    var a := Applied(d, theme);
    var reread := Load(Serialize(a).members);
    AppliedAt(d, theme, ColorCustomizations);
    AppliedAt(d, theme, PeacockColor);
    LoadSerialized(a);
    assert Get(reread, ColorCustomizations) == Get(a, ColorCustomizations);
    SpreadMergeAgain(Get(d, ColorCustomizations), Field(theme, ColorCustomizations));
    assert MergedColors(reread, theme) == MergedColors(d, theme);
    PutUnchanged(reread, ColorCustomizations);
    assert Applied(reread, theme) == Put(reread, PeacockColor, Field(theme, PeacockColor));
    if Field(theme, PeacockColor).Defined? {
      PutUnchanged(reread, PeacockColor);
    } else {
      UndefinedDropped(reread, PeacockColor);
    }
  }
}
