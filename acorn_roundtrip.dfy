/**
 * Saving an object and loading the element back gives the object again, for
 * every object that fits its schema: each scalar converter inverts its
 * serializer on the stored value, the value is among the options, the child
 * tags of a schema are pairwise distinct, at most one entry uses 'text', and
 * nested objects fit their own schemas.
 */
module AcornRoundTrip {
  import opened Results
  import opened Xml
  import opened AcornBase
  import opened Acorn
  import opened AcornProperties

  /** The tag of the child elements an entry's save appends, for the sources that append any. */
  function ChildTag(ct: ClassTable, e: Entry): Option<string> {
    match e.src.kind
    case SubTextSrc => Some(ChildTextTag(e.src.meta, e.name))
    case ChildSrc | ChildrenSrc =>
      if e.src.meta.ty.ClassRef? && e.src.meta.ty.cls in ct then Some(ct[e.src.meta.ty.cls].xmlTag) else None
    case _ => None
  }

  /** Distinct names, no bare base source, at most one 'text' entry, pairwise distinct child tags. */
  ghost predicate SchemaFits(ct: ClassTable, es: seq<Entry>) {
    DistinctNames(es) &&
    (forall i :: 0 <= i < |es| ==> !es[i].src.kind.BaseSrc?) &&
    (forall i, j :: 0 <= i < j < |es| ==> !(es[i].src.kind.TextSrc? && es[j].src.kind.TextSrc?)) &&
    (forall i, j :: 0 <= i < j < |es| && ChildTag(ct, es[i]).Some? ==> ChildTag(ct, es[i]) != ChildTag(ct, es[j]))
  }

  /** An object whose save is read back unchanged. */
  ghost predicate Fits(ct: ClassTable, o: Obj)
    decreases o, 1
  {
    o.cls in ct && Construct(ct, o.cls, {}).Ok? && SchemaFits(ct, ct[o.cls].content) &&
    o.fields.Keys <= Names(ct[o.cls].content) &&
    forall i :: 0 <= i < |ct[o.cls].content| ==> EntryFits(ct, ct[o.cls].content[i], o)
  }

  /**
   * One attribute that survives the round trip: a scalar is present and its
   * converter maps its serialization back to it; a 'child' holds a fitting
   * instance of its class, or is absent, optional and without a default; a
   * 'children' holds a list of fitting instances of its class.
   */
  ghost predicate EntryFits(ct: ClassTable, e: Entry, o: Obj)
    decreases o, 0
  {
    var m := e.src.meta;
    match e.src.kind
    case BaseSrc => false
    case ChildSrc =>
      m.ty.ClassRef? && m.ty.cls in ct &&
      if e.name in o.fields then
        o.fields[e.name].Inst? && o.fields[e.name].obj.cls == m.ty.cls && Fits(ct, o.fields[e.name].obj)
      else m.optional && !HasDefault(m)
    case ChildrenSrc =>
      m.ty.ClassRef? && m.ty.cls in ct && e.name in o.fields && o.fields[e.name].List? &&
      forall k :: 0 <= k < |o.fields[e.name].items| ==>
        o.fields[e.name].items[k].Inst? && o.fields[e.name].items[k].obj.cls == m.ty.cls &&
        Fits(ct, o.fields[e.name].items[k].obj)
    case _ =>
      e.name in o.fields && m.ty.Converter? &&
      m.ty.convert(Some(Serialize(m, o.fields[e.name]))) == Some(o.fields[e.name]) &&
      Permitted(m, o.fields[e.name])
  }

  /** Save then load gives `p` back. */
  ghost predicate RoundTrips(ct: ClassTable, p: Obj) {
    Save(ct, p).Ok? && Load(ct, p.cls, Save(ct, p).value) == Ok(p)
  }

  /** Every object an entry nests round-trips. */
  ghost predicate NestedOk(ct: ClassTable, e: Entry, o: Obj) {
    match e.src.kind
    case ChildSrc =>
      e.name in o.fields && o.fields[e.name].Inst? ==> RoundTrips(ct, o.fields[e.name].obj)
    case ChildrenSrc =>
      e.name in o.fields && o.fields[e.name].List? ==>
        forall k :: 0 <= k < |o.fields[e.name].items| && o.fields[e.name].items[k].Inst? ==>
          RoundTrips(ct, o.fields[e.name].items[k].obj)
    case _ => true
  }

  /** What a saved element holds for one entry of `o`, as that entry's load reads it. */
  ghost predicate Holds(ct: ClassTable, e: Entry, o: Obj, el: Element) {
    var m := e.src.meta;
    match e.src.kind
    case BaseSrc => false
    case TextSrc => e.name in o.fields && el.text == Some(Serialize(m, o.fields[e.name]))
    case AttrSrc =>
      e.name in o.fields && e.name in el.attrib && el.attrib[e.name] == Serialize(m, o.fields[e.name])
    case SubTextSrc =>
      e.name in o.fields &&
      Find(el.children, ChildTextTag(m, e.name)) ==
        Some(Element(ChildTextTag(m, e.name), map[], Some(Serialize(m, o.fields[e.name])), []))
    case ChildSrc =>
      m.ty.ClassRef? && m.ty.cls in ct &&
      if e.name in o.fields then
        o.fields[e.name].Inst? && Save(ct, o.fields[e.name].obj).Ok? &&
        Find(el.children, ct[m.ty.cls].xmlTag) == Some(Save(ct, o.fields[e.name].obj).value)
      else Find(el.children, ct[m.ty.cls].xmlTag).None?
    case ChildrenSrc =>
      m.ty.ClassRef? && m.ty.cls in ct && e.name in o.fields && o.fields[e.name].List? &&
      var items := o.fields[e.name].items;
      var ks := FindAll(el.children, ct[m.ty.cls].xmlTag);
      |ks| == |items| && forall k :: 0 <= k < |items| ==> items[k].Inst? && Save(ct, items[k].obj) == Ok(ks[k])
  }

  /** The changes one entry's save makes to an element, beyond what it writes for itself. */
  ghost predicate SavedFrame(ct: ClassTable, e: Entry, o: Obj, el: Element, el': Element) {
    |el.children| <= |el'.children| && el'.children[..|el.children|] == el.children &&
    (forall k :: |el.children| <= k < |el'.children| ==> ChildTag(ct, e) == Some(el'.children[k].tag)) &&
    (!e.src.kind.AttrSrc? ==> el'.attrib == el.attrib) &&
    (e.src.kind.AttrSrc? ==>
      e.name in o.fields && el'.attrib == el.attrib[e.name := Serialize(e.src.meta, o.fields[e.name])]) &&
    (!e.src.kind.TextSrc? ==> el'.text == el.text)
  }

  /** One fitting entry saves without error, writes what its load reads, and appends only children with its tag. */
  lemma SaveEntryStep(ct: ClassTable, e: Entry, o: Obj, el: Element)
    requires EntryFits(ct, e, o) && NestedOk(ct, e, o)
    requires ChildTag(ct, e).Some? ==> FindAll(el.children, ChildTag(ct, e).value) == []
    ensures SaveEntry(ct, e, o, el).Ok?
    ensures Holds(ct, e, o, SaveEntry(ct, e, o, el).value)
    ensures SavedFrame(ct, e, o, el, SaveEntry(ct, e, o, el).value)
  {
    match e.src.kind {
      case ChildSrc => SaveChildStep(ct, e, o, el);
      case ChildrenSrc => SaveChildrenStep(ct, e, o, el);
      case SubTextSrc => SaveSubTextStep(ct, e, o, el);
      case _ =>
    }
  }

  /** 'child': the nested element is appended, and is the first child with its tag. */
  lemma SaveChildStep(ct: ClassTable, e: Entry, o: Obj, el: Element)
    requires e.src.kind.ChildSrc? && EntryFits(ct, e, o) && NestedOk(ct, e, o)
    requires FindAll(el.children, ChildTag(ct, e).value) == []
    ensures SaveEntry(ct, e, o, el).Ok?
    ensures Holds(ct, e, o, SaveEntry(ct, e, o, el).value)
    ensures SavedFrame(ct, e, o, el, SaveEntry(ct, e, o, el).value)
  {
  }

  /** 'children': the nested elements are appended, and are all the children with their tag. */
  lemma SaveChildrenStep(ct: ClassTable, e: Entry, o: Obj, el: Element)
    requires e.src.kind.ChildrenSrc? && EntryFits(ct, e, o) && NestedOk(ct, e, o)
    requires FindAll(el.children, ChildTag(ct, e).value) == []
    ensures SaveEntry(ct, e, o, el).Ok?
    ensures Holds(ct, e, o, SaveEntry(ct, e, o, el).value)
    ensures SavedFrame(ct, e, o, el, SaveEntry(ct, e, o, el).value)
  {
    ChildrenSave(ct, e, o, el);
    ChildrenFound(ct, e, o, el);
  }

  /** 'children': after a successful save, the children with the tag are exactly the appended ones. */
  lemma ChildrenFound(ct: ClassTable, e: Entry, o: Obj, el: Element)
    requires e.src.kind.ChildrenSrc? && EntryFits(ct, e, o)
    requires FindAll(el.children, ChildTag(ct, e).value) == []
    requires SaveEntry(ct, e, o, el).Ok?
    requires var el' := SaveEntry(ct, e, o, el).value;
      var items := o.fields[e.name].items;
      |el'.children| == |el.children| + |items| && el'.children[..|el.children|] == el.children &&
      forall k :: 0 <= k < |items| ==> items[k].Inst? && Save(ct, items[k].obj) == Ok(el'.children[|el.children| + k])
    ensures var el' := SaveEntry(ct, e, o, el).value;
      FindAll(el'.children, ChildTag(ct, e).value) == el'.children[|el.children|..]
  {
    var t := ct[e.src.meta.ty.cls].xmlTag;
    var items := o.fields[e.name].items;
    var el' := SaveEntry(ct, e, o, el).value;
    var extra := el'.children[|el.children|..];
    assert el'.children == el.children + extra;
    FindAllAppend(el.children, extra, t);
    forall k | 0 <= k < |extra| ensures extra[k].tag == t {
      assert Save(ct, items[k].obj) == Ok(extra[k]);
    }
    FindAllAllMatch(extra, t);
  }

  /** 'child.text': the new child is the first one with its tag. */
  lemma SaveSubTextStep(ct: ClassTable, e: Entry, o: Obj, el: Element)
    requires e.src.kind.SubTextSrc? && EntryFits(ct, e, o)
    requires FindAll(el.children, ChildTag(ct, e).value) == []
    ensures SaveEntry(ct, e, o, el).Ok?
    ensures Holds(ct, e, o, SaveEntry(ct, e, o, el).value)
    ensures SavedFrame(ct, e, o, el, SaveEntry(ct, e, o, el).value)
  {
    var m := e.src.meta;
    var t := ChildTextTag(m, e.name);
    var el' := SaveEntry(ct, e, o, el).value;
    var k := Element(t, map[], Some(Serialize(m, o.fields[e.name])), []);
    assert el'.children == el.children + [k];
    FindAppend(el.children, [k], t);
  }

  /** An entry's save leaves intact what an earlier entry with another name, tag and target wrote. */
  lemma HoldsPreserved(ct: ClassTable, d: Entry, e: Entry, o: Obj, el: Element, el': Element)
    requires Holds(ct, d, o, el) && SavedFrame(ct, e, o, el, el')
    requires d.name != e.name
    requires !(d.src.kind.TextSrc? && e.src.kind.TextSrc?)
    requires ChildTag(ct, d).Some? ==> ChildTag(ct, d) != ChildTag(ct, e)
    ensures Holds(ct, d, o, el')
  {
    var extra := el'.children[|el.children|..];
    assert el'.children == el.children + extra;
    if ChildTag(ct, d).Some? {
      var t := ChildTag(ct, d).value;
      forall k | 0 <= k < |extra| ensures extra[k].tag != t {
        assert ChildTag(ct, e) == Some(el'.children[|el.children| + k].tag);
      }
      FindUnchanged(el.children, extra, t);
    }
  }

  /** Saving the remaining entries, after `done` was saved, writes what every entry's load reads. */
  lemma {:induction false} SaveEntriesHolds(ct: ClassTable, done: seq<Entry>, es: seq<Entry>, o: Obj, el: Element)
    requires SchemaFits(ct, done + es)
    requires forall i :: 0 <= i < |es| ==> EntryFits(ct, es[i], o) && NestedOk(ct, es[i], o)
    requires forall i :: 0 <= i < |done| ==> Holds(ct, done[i], o, el)
    requires forall i :: 0 <= i < |es| && ChildTag(ct, es[i]).Some? ==>
      FindAll(el.children, ChildTag(ct, es[i]).value) == []
    ensures SaveEntries(ct, es, o, el).Ok?
    ensures forall i :: 0 <= i < |done + es| ==> Holds(ct, (done + es)[i], o, SaveEntries(ct, es, o, el).value)
    decreases |es|
  {
    if es == [] {
      assert done + es == done;
    } else {
      var all := done + es;
      var e := es[0];
      assert all[|done|] == e;
      SaveEntryStep(ct, e, o, el);
      var el' := SaveEntry(ct, e, o, el).value;
      var done' := done + [e];
      var rest := es[1..];
      assert done' + rest == all;
      forall i | 0 <= i < |done'| ensures Holds(ct, done'[i], o, el') {
        if i < |done| {
          assert all[i] == done[i];
          HoldsPreserved(ct, done[i], e, o, el, el');
        }
      }
      forall i | 0 <= i < |rest| && ChildTag(ct, rest[i]).Some?
        ensures FindAll(el'.children, ChildTag(ct, rest[i]).value) == []
      {
        assert rest[i] == es[i + 1] == all[|done| + 1 + i];
        var t := ChildTag(ct, rest[i]).value;
        var extra := el'.children[|el.children|..];
        assert el'.children == el.children + extra;
        forall k | 0 <= k < |extra| ensures extra[k].tag != t {
          assert ChildTag(ct, e) == Some(el'.children[|el.children| + k].tag);
        }
        FindUnchanged(el.children, extra, t);
      }
      forall i | 0 <= i < |rest| ensures EntryFits(ct, rest[i], o) && NestedOk(ct, rest[i], o) {
        assert rest[i] == es[i + 1];
      }
      SaveEntriesHolds(ct, done', rest, o, el');
    }
  }

  /** One entry reads back from a saved element the value `o` holds, or leaves an absent one alone. */
  lemma LoadEntryReads(ct: ClassTable, e: Entry, o: Obj, el: Element, obj: Obj)
    requires EntryFits(ct, e, o) && NestedOk(ct, e, o) && Holds(ct, e, o, el)
    ensures LoadEntry(ct, e, el, obj) ==
      Ok(if e.name in o.fields then SetAttr(obj, e.name, o.fields[e.name]) else obj)
  {
    var m := e.src.meta;
    match e.src.kind {
      case ChildSrc =>
      case ChildrenSrc =>
        var c := m.ty.cls;
        var items := o.fields[e.name].items;
        var ks := FindAll(el.children, ct[c].xmlTag);
        assert forall k :: 0 <= k < |ks| ==> Load(ct, c, ks[k]) == Ok(items[k].obj);
        LoadAllSpec(ct, c, ks, el);
        var objs := LoadAll(ct, c, ks, el).value;
        assert Insts(objs) == items;
      case SubTextSrc =>
        var t := ChildTextTag(m, e.name);
        assert Find(el.children, t).value in el.children;
      case _ =>
    }
  }

  /** Loading every entry from a saved element overlays `o`'s attributes on the constructed instance. */
  lemma {:induction false} LoadEntriesReads(ct: ClassTable, es: seq<Entry>, o: Obj, el: Element, obj: Obj)
    requires forall i :: 0 <= i < |es| ==> EntryFits(ct, es[i], o) && NestedOk(ct, es[i], o) && Holds(ct, es[i], o, el)
    ensures LoadEntries(ct, es, el, obj) == Ok(Override(obj, Names(es), o.fields))
    decreases |es|
  {
    if es == [] {
      assert Override(obj, {}, o.fields).fields == obj.fields;
      assert Names(es) == {};
    } else {
      var e := es[0];
      var rest := es[1..];
      assert forall i :: 0 <= i < |rest| ==> rest[i] == es[i + 1];
      LoadEntryReads(ct, e, o, el, obj);
      var obj1 := if e.name in o.fields then SetAttr(obj, e.name, o.fields[e.name]) else obj;
      LoadEntriesReads(ct, rest, o, el, obj1);
      NamesCons(es);
      OverlayStep(obj, o, e.name, Names(rest));
    }
  }

  /** The names of a non-empty schema: the first entry's and the rest's. */
  lemma NamesCons(es: seq<Entry>)
    requires es != []
    ensures Names(es) == {es[0].name} + Names(es[1..])
  {
  }

  /** Taking one attribute from `o` first, then the rest, is taking them all at once. */
  lemma OverlayStep(obj: Obj, o: Obj, n: string, names: set<string>)
    ensures Override(if n in o.fields then SetAttr(obj, n, o.fields[n]) else obj, names, o.fields) ==
      Override(obj, {n} + names, o.fields)
  {
    var obj1 := if n in o.fields then SetAttr(obj, n, o.fields[n]) else obj;
    assert Override(obj1, names, o.fields).fields == Override(obj, {n} + names, o.fields).fields;
  }

  /**
   * The round trip: saving a fitting object succeeds, and loading the saved
   * element as the object's class gives the object back.
   */
  lemma {:induction false} RoundTrip(ct: ClassTable, o: Obj)
    requires Fits(ct, o)
    ensures Save(ct, o).Ok?
    ensures Load(ct, o.cls, Save(ct, o).value) == Ok(o)
    decreases o, 1
  {
    var content := ct[o.cls].content;
    forall i | 0 <= i < |content| ensures NestedOk(ct, content[i], o) {
      NestedRoundTrip(ct, content[i], o);
    }
    var el0 := NewElement(ct[o.cls].xmlTag);
    assert [] + content == content;
    SaveEntriesHolds(ct, [], content, o, el0);
    var saved := SaveEntries(ct, content, o, el0).value;
    assert Save(ct, o) == Ok(saved);
    var d := Construct(ct, o.cls, {}).value;
    LoadEntriesReads(ct, content, o, saved, d);
    OverlayConstructed(ct, o);
  }

  /** Every attribute construction sets for a fitting object is one the object holds too. */
  lemma OverlayConstructed(ct: ClassTable, o: Obj)
    requires Fits(ct, o)
    ensures Override(Construct(ct, o.cls, {}).value, Names(ct[o.cls].content), o.fields) == o
  {
    var content := ct[o.cls].content;
    var d := Construct(ct, o.cls, {}).value;
    ConstructSpec(ct, o.cls, {});
    assert {} + {o.cls} == {o.cls};
    forall n | n in d.fields ensures n in o.fields {
      var i :| 0 <= i < |content| && content[i].name == n;
      DefaultedFits(ct, {o.cls}, content[i], o, d);
    }
    OverlayCovers(d, o, Names(content));
  }

  /** An attribute construction sets is one a fitting object holds. */
  lemma DefaultedFits(ct: ClassTable, visiting: set<string>, e: Entry, o: Obj, d: Obj)
    requires EntryFits(ct, e, o) && Defaulted(ct, visiting, e, d) && e.name in d.fields
    ensures e.name in o.fields
  {
  }

  /** Overlaying every attribute of `o` on an object with fewer attributes gives `o`. */
  lemma OverlayCovers(d: Obj, o: Obj, names: set<string>)
    requires d.cls == o.cls && d.fields.Keys <= o.fields.Keys && o.fields.Keys <= names
    ensures Override(d, names, o.fields) == o
  {
    assert Override(d, names, o.fields).fields == o.fields;
  }

  /** Every object an entry of a fitting object nests round-trips. */
  lemma {:induction false} NestedRoundTrip(ct: ClassTable, e: Entry, o: Obj)
    requires EntryFits(ct, e, o)
    ensures NestedOk(ct, e, o)
    decreases o, 0
  {
    match e.src.kind {
      case ChildSrc =>
        if e.name in o.fields {
          RoundTrip(ct, o.fields[e.name].obj);
        }
      case ChildrenSrc =>
        var items := o.fields[e.name].items;
        forall k | 0 <= k < |items| ensures RoundTrips(ct, items[k].obj) {
          RoundTrip(ct, items[k].obj);
        }
      case _ =>
    }
  }
}
