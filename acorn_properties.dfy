/**
 * What the construction, load and save walks of module Acorn promise, stated
 * over their specification functions: which attributes construction sets,
 * how 'child' reads and writes one element, and how 'children' keeps the
 * number and the order of its elements in both directions.
 */
module AcornProperties {
  import opened Results
  import opened Xml
  import opened AcornBase
  import opened Acorn

  /** No two entries of a schema name the same attribute (the schema is a dictionary). */
  ghost predicate DistinctNames(es: seq<Entry>) {
    forall i, j :: 0 <= i < j < |es| ==> es[i].name != es[j].name
  }

  // ---------------------------------------------------------------------------
  // Construction
  // ---------------------------------------------------------------------------

  /**
   * What `create_default` leaves in one entry's attribute of a fresh instance;
   * `visiting` holds the classes whose construction is under way.
   */
  ghost predicate Defaulted(ct: ClassTable, visiting: set<string>, e: Entry, d: Obj) {
    var m := e.src.meta;
    match e.src.kind
    case ChildrenSrc => e.name in d.fields && d.fields[e.name] == List([])
    case ChildSrc =>
      if HasDefault(m) then
        m.ty.ClassRef? && Construct(ct, m.ty.cls, visiting).Ok? &&
        e.name in d.fields && d.fields[e.name] == Inst(Construct(ct, m.ty.cls, visiting).value)
      else e.name !in d.fields
    case _ =>
      if HasDefault(m) then e.name in d.fields && d.fields[e.name] == m.default.value
      else e.name !in d.fields
  }

  /** The defaults loop sets each remaining entry as `create_default` says and keeps what was there. */
  lemma {:induction false} DefaultsFromSpec(ct: ClassTable, es: seq<Entry>, visiting: set<string>, obj: Obj)
    requires DistinctNames(es)
    requires forall i :: 0 <= i < |es| ==> es[i].name !in obj.fields
    requires DefaultsFrom(ct, es, visiting, obj).Ok?
    ensures forall i :: 0 <= i < |es| ==> Defaulted(ct, visiting, es[i], DefaultsFrom(ct, es, visiting, obj).value)
    ensures forall n :: n in obj.fields ==>
      n in DefaultsFrom(ct, es, visiting, obj).value.fields &&
      DefaultsFrom(ct, es, visiting, obj).value.fields[n] == obj.fields[n]
  {
    if es != [] {
      var o := CreateDefault(ct, es[0], visiting, obj).value;
      var rest := es[1..];
      assert forall i :: 0 <= i < |rest| ==> rest[i] == es[i + 1];
      assert forall i :: 0 <= i < |rest| ==> rest[i].name !in o.fields;
      DefaultsFromSpec(ct, rest, visiting, o);
      var d := DefaultsFrom(ct, rest, visiting, o).value;
      assert d == DefaultsFrom(ct, es, visiting, obj).value;
      assert Defaulted(ct, visiting, es[0], o);
      assert es[0].name !in Names(rest);
      assert Defaulted(ct, visiting, es[0], d);
    }
  }

  /**
   * `cls()`: 'children' attributes start as [], a 'child' attribute with a
   * default holds the default-constructed instance of its class (built with
   * `cls` under construction), any other attribute with a
   * default holds that default; an attribute without one is not set.
   */
  lemma ConstructSpec(ct: ClassTable, cls: string, visiting: set<string>)
    requires Construct(ct, cls, visiting).Ok?
    requires cls in ct && DistinctNames(ct[cls].content)
    ensures var d := Construct(ct, cls, visiting).value;
      d.cls == cls && d.fields.Keys <= Names(ct[cls].content) &&
      forall i :: 0 <= i < |ct[cls].content| ==> Defaulted(ct, visiting + {cls}, ct[cls].content[i], d)
  {
    DefaultsFromSpec(ct, ct[cls].content, visiting + {cls}, Obj(cls, map[]));
  }

  /** `cls(**kwargs)`: a keyword naming a schema attribute wins over its default; other keywords change nothing. */
  lemma KeywordsOverrideDefaults(ct: ClassTable, cls: string, kwargs: map<string, Value>, n: string)
    requires Construct(ct, cls, {}).Ok?
    ensures var r := Override(Construct(ct, cls, {}).value, Names(ct[cls].content), kwargs);
      (n in Names(ct[cls].content) && n in kwargs ==> n in r.fields && r.fields[n] == kwargs[n]) &&
      (n !in Names(ct[cls].content) ==> n !in r.fields)
  {
  }

  // ---------------------------------------------------------------------------
  // The 'child' source
  // ---------------------------------------------------------------------------

  /**
   * 'child' loading reads the first child with the class's tag; without one,
   * an optional entry leaves the attribute as construction set it and a
   * required one raises.
   */
  lemma ChildLoad(ct: ClassTable, e: Entry, el: Element, obj: Obj)
    requires e.src.kind.ChildSrc? && e.src.meta.ty.ClassRef? && e.src.meta.ty.cls in ct
    ensures var c := e.src.meta.ty.cls;
      var found := Find(el.children, ct[c].xmlTag);
      var r := LoadEntry(ct, e, el, obj);
      (found.Some? ==>
        (r.Ok? <==> Load(ct, c, found.value).Ok?) &&
        (r.Ok? ==> r.value == SetAttr(obj, e.name, Inst(Load(ct, c, found.value).value)))) &&
      (found.None? && e.src.meta.optional ==> r == Ok(obj)) &&
      (found.None? && !e.src.meta.optional ==> r == Err(MissingChild(e.name)))
  {
  }

  /**
   * 'child' saving: an absent attribute is skipped when optional and raises
   * otherwise; a present one appends exactly its object's element as the
   * last child.
   */
  lemma ChildSave(ct: ClassTable, e: Entry, obj: Obj, el: Element)
    requires e.src.kind.ChildSrc?
    ensures e.name !in obj.fields && e.src.meta.optional ==> SaveEntry(ct, e, obj, el) == Ok(el)
    ensures e.name !in obj.fields && !e.src.meta.optional ==>
      SaveEntry(ct, e, obj, el) == Err(MissingAttribute(e.name))
    ensures e.name in obj.fields && obj.fields[e.name].Inst? && Save(ct, obj.fields[e.name].obj).Ok? ==>
      SaveEntry(ct, e, obj, el) == Ok(Append(el, Save(ct, obj.fields[e.name].obj).value))
    ensures e.name in obj.fields && SaveEntry(ct, e, obj, el).Ok? ==>
      obj.fields[e.name].Inst? && Save(ct, obj.fields[e.name].obj).Ok? &&
      SaveEntry(ct, e, obj, el).value == Append(el, Save(ct, obj.fields[e.name].obj).value)
  {
  }

  // ---------------------------------------------------------------------------
  // The 'children' source
  // ---------------------------------------------------------------------------

  /** Loading a run of elements succeeds exactly when each loads, and keeps their order. */
  lemma {:induction false} LoadAllSpec(ct: ClassTable, c: string, kids: seq<Element>, parent: Element)
    requires forall k :: k in kids ==> k in parent.children
    ensures LoadAll(ct, c, kids, parent).Ok? <==> forall i :: 0 <= i < |kids| ==> Load(ct, c, kids[i]).Ok?
    ensures LoadAll(ct, c, kids, parent).Ok? ==>
      forall i :: 0 <= i < |kids| ==> Load(ct, c, kids[i]) == Ok(LoadAll(ct, c, kids, parent).value[i])
  {
    if kids != [] {
      var rest := kids[1..];
      assert forall i :: 0 <= i < |rest| ==> rest[i] == kids[i + 1];
      LoadAllSpec(ct, c, rest, parent);
      if LoadAll(ct, c, kids, parent).Ok? {
        var r := LoadAll(ct, c, kids, parent).value;
        assert r == [Load(ct, c, kids[0]).value] + LoadAll(ct, c, rest, parent).value;
      }
    }
  }

  /**
   * 'children' loading: one instance per matching direct child, in document
   * order; no matching child gives the empty list and never an error.
   */
  lemma ChildrenLoad(ct: ClassTable, e: Entry, el: Element, obj: Obj)
    requires e.src.kind.ChildrenSrc? && e.src.meta.ty.ClassRef? && e.src.meta.ty.cls in ct
    ensures var kids := FindAll(el.children, ct[e.src.meta.ty.cls].xmlTag);
      LoadEntry(ct, e, el, obj).Ok? <==> forall i :: 0 <= i < |kids| ==> Load(ct, e.src.meta.ty.cls, kids[i]).Ok?
    ensures var kids := FindAll(el.children, ct[e.src.meta.ty.cls].xmlTag);
      var r := LoadEntry(ct, e, el, obj);
      r.Ok? ==>
        e.name in r.value.fields && r.value.fields[e.name].List? &&
        |r.value.fields[e.name].items| == |kids| &&
        forall i :: 0 <= i < |kids| ==>
          r.value.fields[e.name].items[i] == Inst(Load(ct, e.src.meta.ty.cls, kids[i]).value)
    ensures FindAll(el.children, ct[e.src.meta.ty.cls].xmlTag) == [] ==>
      LoadEntry(ct, e, el, obj) == Ok(SetAttr(obj, e.name, List([])))
  {
    var c := e.src.meta.ty.cls;
    var kids := FindAll(el.children, ct[c].xmlTag);
    LoadAllSpec(ct, c, kids, el);
    var all := LoadAll(ct, c, kids, el);
    if all.Ok? {
      assert LoadEntry(ct, e, el, obj) == Ok(SetAttr(obj, e.name, List(Insts(all.value))));
    } else {
      assert LoadEntry(ct, e, el, obj).Err?;
      var i :| 0 <= i < |kids| && !Load(ct, c, kids[i]).Ok?;
      assert !Load(ct, e.src.meta.ty.cls, FindAll(el.children, ct[e.src.meta.ty.cls].xmlTag)[i]).Ok?;
    }
  }

  /** Saving a run of items appends one element per item, in item order, and nothing else. */
  lemma {:induction false} SaveEachSpec(ct: ClassTable, name: string, items: seq<Value>, el: Element, whole: Value)
    requires whole.List? && forall v :: v in items ==> v in whole.items
    ensures SaveEach(ct, name, items, el, whole).Ok? <==>
      forall i :: 0 <= i < |items| ==> items[i].Inst? && Save(ct, items[i].obj).Ok?
    ensures SaveEach(ct, name, items, el, whole).Ok? ==>
      var out := SaveEach(ct, name, items, el, whole).value.children;
      |out| == |el.children| + |items| && out[..|el.children|] == el.children &&
      forall i :: 0 <= i < |items| ==> items[i].Inst? && Save(ct, items[i].obj) == Ok(out[|el.children| + i])
    decreases |items|
  {
    if items != [] {
      var rest := items[1..];
      assert forall i :: 0 <= i < |rest| ==> rest[i] == items[i + 1];
      assert items[0] in items;
      if items[0].Inst? && Save(ct, items[0].obj).Ok? {
        var el' := Append(el, Save(ct, items[0].obj).value);
        SaveEachSpec(ct, name, rest, el', whole);
        if SaveEach(ct, name, items, el, whole).Ok? {
          var out := SaveEach(ct, name, items, el, whole).value.children;
          assert out == SaveEach(ct, name, rest, el', whole).value.children;
          assert out[..|el'.children|] == el'.children;
          assert out[..|el.children|] == el'.children[..|el.children|];
          forall i | 0 <= i < |items|
            ensures items[i].Inst? && Save(ct, items[i].obj) == Ok(out[|el.children| + i])
          {
            if i > 0 {
              assert items[i] == rest[i - 1];
            } else {
              assert out[|el.children|] == el'.children[|el.children|];
            }
          }
        }
      }
    }
  }

  /**
   * 'children' saving: a list appends one element per item, in list order;
   * an absent attribute raises; the empty string appends nothing.
   */
  lemma ChildrenSave(ct: ClassTable, e: Entry, obj: Obj, el: Element)
    requires e.src.kind.ChildrenSrc?
    ensures e.name !in obj.fields ==> SaveEntry(ct, e, obj, el) == Err(MissingAttribute(e.name))
    ensures e.name in obj.fields && obj.fields[e.name] == Str("") ==> SaveEntry(ct, e, obj, el) == Ok(el)
    ensures e.name in obj.fields && obj.fields[e.name].List? ==>
      var items := obj.fields[e.name].items;
      var r := SaveEntry(ct, e, obj, el);
      (r.Ok? <==> forall i :: 0 <= i < |items| ==> items[i].Inst? && Save(ct, items[i].obj).Ok?) &&
      (r.Ok? ==>
        |r.value.children| == |el.children| + |items| &&
        r.value.children[..|el.children|] == el.children &&
        r.value.attrib == el.attrib && r.value.text == el.text &&
        forall i :: 0 <= i < |items| ==> items[i].Inst? && Save(ct, items[i].obj) == Ok(r.value.children[|el.children| + i]))
  {
    if e.name in obj.fields && obj.fields[e.name].List? {
      var v := obj.fields[e.name];
      SaveEachSpec(ct, e.name, v.items, el, v);
    }
  }
}
