/**
 * The Acorn orchestrator: construction with defaults and keyword overrides,
 * the recursive `fromxml` walk (element to object) and the recursive
 * `_toxml` walk (object to element), together with the rules of the two
 * object sources, 'child' and 'children', which recurse into those walks.
 *
 * Each walk is stated twice: as a specification function (Construct, Load,
 * Save) and as the loop-based method that follows the source (New, FromXml,
 * ToXml), proved equal to it.
 */
module Acorn {
  import opened Results
  import opened Xml
  import opened AcornBase

  /** A mappable class: its `xml_tag` and its compiled `acorn_content`, in walk order. */
  datatype ClassDecl = ClassDecl(xmlTag: string, content: seq<Entry>)

  /** Every mappable class of the program, by name. */
  type ClassTable = map<string, ClassDecl>

  /** The attribute names a schema declares. */
  function Names(es: seq<Entry>): set<string> {
    set i | 0 <= i < |es| :: es[i].name
  }

  /** Wraps loaded objects as attribute values. */
  function Insts(objs: seq<Obj>): (vs: seq<Value>)
    ensures |vs| == |objs| && forall i :: 0 <= i < |objs| ==> vs[i] == Inst(objs[i])
  {
    seq(|objs|, i requires 0 <= i < |objs| => Inst(objs[i]))
  }

  // ---------------------------------------------------------------------------
  // Construction: Acorn.__init__ and every create_default
  // ---------------------------------------------------------------------------

  /**
   * `cls()`: a new instance with every entry's default applied. `visiting`
   * holds the classes whose construction is under way; meeting one again is
   * the unbounded recursion the source runs into (a RecursionError).
   */
  function Construct(ct: ClassTable, cls: string, visiting: set<string>): (r: Result<Obj, AcornError>)
    decreases ct.Keys - visiting, 0, 0
    ensures r.Ok? ==> cls in ct && r.value.cls == cls && r.value.fields.Keys <= Names(ct[cls].content)
  {
    if cls !in ct then Err(UnknownClass(cls))
    else if cls in visiting then Err(RecursionLimit(cls))
    else DefaultsFrom(ct, ct[cls].content, visiting + {cls}, Obj(cls, map[]))
  }

  /** The defaults loop of `__init__`, over the remaining entries. */
  function DefaultsFrom(ct: ClassTable, es: seq<Entry>, visiting: set<string>, obj: Obj): (r: Result<Obj, AcornError>)
    decreases ct.Keys - visiting, 1, |es|
    ensures r.Ok? ==> r.value.cls == obj.cls && r.value.fields.Keys <= obj.fields.Keys + Names(es)
  {
    if es == [] then Ok(obj)
    else
      var o :- CreateDefault(ct, es[0], visiting, obj);
      assert Names(es) == {es[0].name} + Names(es[1..]) by {
        assert forall i :: 0 <= i < |es[1..]| ==> es[1..][i] == es[i + 1];
      }
      DefaultsFrom(ct, es[1..], visiting, o)
  }

  /**
   * One entry's `create_default`: 'children' always starts as [], 'child'
   * gets a fresh instance of its class when its default is not None, every
   * other source gets its default when that is not None.
   */
  function CreateDefault(ct: ClassTable, e: Entry, visiting: set<string>, obj: Obj): (r: Result<Obj, AcornError>)
    decreases ct.Keys - visiting, 1, 0
    ensures r.Ok? ==> r.value.cls == obj.cls && r.value.fields.Keys <= obj.fields.Keys + {e.name}
    ensures r.Ok? ==> forall n :: n != e.name && n in obj.fields ==> n in r.value.fields && r.value.fields[n] == obj.fields[n]
    ensures e.src.kind.ChildrenSrc? ==> r == Ok(SetAttr(obj, e.name, List([])))
    ensures !e.src.kind.ChildrenSrc? && !HasDefault(e.src.meta) ==> r == Ok(obj)
    ensures r.Ok? && HasDefault(e.src.meta) && e.src.kind.ChildSrc? ==>
      e.src.meta.ty.ClassRef? && e.name in r.value.fields &&
      r.value.fields[e.name].Inst? && r.value.fields[e.name].obj.cls == e.src.meta.ty.cls
    // a 'child' default is the default-constructed instance of its class, `type()`
    ensures HasDefault(e.src.meta) && e.src.kind.ChildSrc? && e.src.meta.ty.ClassRef? ==>
      var d := Construct(ct, e.src.meta.ty.cls, visiting);
      (r.Ok? <==> d.Ok?) && (r.Err? ==> r == Err(d.error)) &&
      (r.Ok? ==> r.value == SetAttr(obj, e.name, Inst(d.value)))
    ensures HasDefault(e.src.meta) && e.src.kind.ChildSrc? && !e.src.meta.ty.ClassRef? ==>
      r == Err(BadType(e.name))
    ensures HasDefault(e.src.meta) && !e.src.kind.ChildSrc? && !e.src.kind.ChildrenSrc? ==>
      r == Ok(SetAttr(obj, e.name, e.src.meta.default.value))
  {
    match e.src.kind
    case ChildrenSrc => Ok(SetAttr(obj, e.name, List([])))
    case ChildSrc =>
      if !HasDefault(e.src.meta) then Ok(obj)
      else (
        match e.src.meta.ty
        case ClassRef(c) =>
          var d :- Construct(ct, c, visiting);
          Ok(SetAttr(obj, e.name, Inst(d)))
        case _ => Err(BadType(e.name)))
    case _ => Ok(ScalarDefault(e.name, e.src.meta, obj))
  }

  /**
   * The keyword loop of `__init__`: a keyword naming a schema attribute sets
   * it, any other keyword is ignored.
   */
  function Override(obj: Obj, names: set<string>, kwargs: map<string, Value>): (r: Obj)
    ensures r.cls == obj.cls
    ensures forall n :: n in r.fields <==> n in obj.fields || (n in names && n in kwargs)
    ensures forall n :: n in names && n in kwargs ==> r.fields[n] == kwargs[n]
    ensures forall n :: n in obj.fields && (n !in names || n !in kwargs) ==> r.fields[n] == obj.fields[n]
  {
    obj.(fields := obj.fields + map n | n in kwargs && n in names :: kwargs[n])
  }

  /** `cls(**kwargs)`: defaults first, then the keyword overrides. */
  method New(ct: ClassTable, cls: string, kwargs: map<string, Value>) returns (r: Result<Obj, AcornError>)
    ensures r.Ok? <==> Construct(ct, cls, {}).Ok?
    ensures r.Err? ==> r == Construct(ct, cls, {})
    ensures r.Ok? ==> r.value == Override(Construct(ct, cls, {}).value, Names(ct[cls].content), kwargs)
  {
    if cls !in ct {
      return Err(UnknownClass(cls));
    }
    var content := ct[cls].content;
    var obj := Obj(cls, map[]);
    // Create all defaults.
    assert content[0..] == content && {} + {cls} == {cls};
    var i := 0;
    while i < |content|
      invariant 0 <= i <= |content|
      invariant DefaultsFrom(ct, content[i..], {cls}, obj) == Construct(ct, cls, {})
    {
      assert content[i..][0] == content[i] && content[i..][1..] == content[i + 1..];
      var step := CreateDefault(ct, content[i], {cls}, obj);
      if step.Err? {
        return Err(step.error);
      }
      obj := step.value;
      i := i + 1;
    }
    // Apply the keyword arguments that name schema attributes.
    obj := ApplyKeywords(obj, Names(content), kwargs);
    return Ok(obj);
  }

  /** The keyword loop of `__init__`, over the keyword dictionary. */
  method ApplyKeywords(built: Obj, names: set<string>, kwargs: map<string, Value>) returns (obj: Obj)
    ensures obj == Override(built, names, kwargs)
  {
    obj := built;
    var pending := kwargs.Keys;
    assert kwargs - pending == map[];
    assert built.fields + map[] == built.fields;
    while pending != {}
      invariant pending <= kwargs.Keys
      invariant obj == Override(built, names, kwargs - pending)
      decreases pending
    {
      var n :| n in pending;
      if n in names {
        obj := SetAttr(obj, n, kwargs[n]);
      }
      OverrideStep(built, names, kwargs, pending, n);
      pending := pending - {n};
    }
    assert kwargs - pending == kwargs;
  }

  /** Without keyword arguments, construction is the defaults alone. */
  lemma OverrideNothing(obj: Obj, names: set<string>)
    ensures Override(obj, names, map[]) == obj
  {
  }

  /** Taking one more keyword into account updates that attribute, when it is a schema name. */
  lemma OverrideStep(built: Obj, names: set<string>, kwargs: map<string, Value>, pending: set<string>, n: string)
    requires n in pending && pending <= kwargs.Keys
    ensures Override(built, names, kwargs - (pending - {n})) ==
      var o := Override(built, names, kwargs - pending);
      if n in names then SetAttr(o, n, kwargs[n]) else o
  {
    var o := Override(built, names, kwargs - pending);
    var o' := Override(built, names, kwargs - (pending - {n}));
    if n in names {
      assert o'.fields == SetAttr(o, n, kwargs[n]).fields;
    } else {
      assert o'.fields == o.fields;
    }
  }

  // ---------------------------------------------------------------------------
  // Loading: Acorn.fromxml and the fromxml rule of every source
  // ---------------------------------------------------------------------------

  /** `cls.fromxml(el)`: construct, then load every entry from the element. */
  ghost function Load(ct: ClassTable, cls: string, el: Element): (r: Result<Obj, AcornError>)
    decreases el, 3
    ensures r.Ok? ==> r.value.cls == cls
  {
    var obj :- Construct(ct, cls, {});
    LoadEntries(ct, ct[cls].content, el, obj)
  }

  /** The load loop of `fromxml`, over the remaining entries. */
  ghost function LoadEntries(ct: ClassTable, es: seq<Entry>, el: Element, obj: Obj): (r: Result<Obj, AcornError>)
    decreases el, 2, |es|
    ensures r.Ok? ==> r.value.cls == obj.cls
    ensures r.Ok? ==> forall n :: n !in Names(es) ==> (n in r.value.fields <==> n in obj.fields)
    ensures r.Ok? ==> forall n :: n !in Names(es) && n in obj.fields ==> r.value.fields[n] == obj.fields[n]
  {
    if es == [] then Ok(obj)
    else
      var o :- LoadEntry(ct, es[0], el, obj);
      assert Names(es) == {es[0].name} + Names(es[1..]) by {
        assert forall i :: 0 <= i < |es[1..]| ==> es[1..][i] == es[i + 1];
      }
      LoadEntries(ct, es[1..], el, o)
  }

  /** One entry's `fromxml`. */
  ghost function LoadEntry(ct: ClassTable, e: Entry, el: Element, obj: Obj): (r: Result<Obj, AcornError>)
    decreases el, 1
    ensures r.Ok? ==> r.value.cls == obj.cls
    ensures r.Ok? ==> forall n :: n != e.name ==> (n in r.value.fields <==> n in obj.fields)
    ensures r.Ok? ==> forall n :: n != e.name && n in obj.fields ==> r.value.fields[n] == obj.fields[n]
  {
    match e.src.kind
    case BaseSrc => Err(NotImplemented)
    case ChildSrc => (
      match e.src.meta.ty
      case ClassRef(c) =>
        if c !in ct then Err(UnknownClass(c))
        else (
          match Find(el.children, ct[c].xmlTag)
          case Some(k) =>
            var o :- Load(ct, c, k);
            Ok(SetAttr(obj, e.name, Inst(o)))
          case None =>
            if e.src.meta.optional then Ok(obj) else Err(MissingChild(e.name)))
      case _ => Err(BadType(e.name)))
    case ChildrenSrc => (
      match e.src.meta.ty
      case ClassRef(c) =>
        if c !in ct then Err(UnknownClass(c))
        else
          var objs :- LoadAll(ct, c, FindAll(el.children, ct[c].xmlTag), el);
          Ok(SetAttr(obj, e.name, List(Insts(objs))))
      case _ => Err(BadType(e.name)))
    case _ =>
      var v :- LoadScalar(e.src.kind, e.name, e.src.meta, el);
      Ok(SetAttr(obj, e.name, v))
  }

  /** Loads each of `kids` (direct children of `parent`) as an instance of `c`, in order. */
  ghost function LoadAll(ct: ClassTable, c: string, kids: seq<Element>, parent: Element): (r: Result<seq<Obj>, AcornError>)
    requires forall k :: k in kids ==> k in parent.children
    decreases parent, 0, |kids|
    ensures r.Ok? ==> |r.value| == |kids|
  {
    if kids == [] then Ok([])
    else
      assert kids[0] in kids;
      var j :| 0 <= j < |parent.children| && parent.children[j] == kids[0];
      var o :- Load(ct, c, kids[0]);
      var os :- LoadAll(ct, c, kids[1..], parent);
      Ok([o] + os)
  }

  /** The objects loaded so far, followed by the outcome of loading the rest. */
  function Glue(objs: seq<Obj>, rest: Result<seq<Obj>, AcornError>): Result<seq<Obj>, AcornError> {
    match rest
    case Ok(more) => Ok(objs + more)
    case Err(err) => Err(err)
  }

  lemma GlueEmpty(rest: Result<seq<Obj>, AcornError>)
    ensures Glue([], rest) == rest
  {
    if rest.Ok? {
      assert [] + rest.value == rest.value;
    }
  }

  lemma GlueAssoc(a: seq<Obj>, b: seq<Obj>, rest: Result<seq<Obj>, AcornError>)
    ensures Glue(a, Glue(b, rest)) == Glue(a + b, rest)
  {
    if rest.Ok? {
      assert a + (b + rest.value) == (a + b) + rest.value;
    }
  }

  /** `cls.fromxml(el)` as the source runs it: construct, then a loop over the entries. */
  method FromXml(ct: ClassTable, cls: string, el: Element) returns (r: Result<Obj, AcornError>)
    decreases el, 3
    ensures r == Load(ct, cls, el)
  {
    var init := New(ct, cls, map[]);
    if init.Err? {
      return init;
    }
    var obj := init.value;
    var content := ct[cls].content;
    OverrideNothing(Construct(ct, cls, {}).value, Names(content));
    assert content[0..] == content;
    var i := 0;
    while i < |content|
      invariant 0 <= i <= |content|
      invariant LoadEntries(ct, content[i..], el, obj) == Load(ct, cls, el)
    {
      assert content[i..][0] == content[i] && content[i..][1..] == content[i + 1..];
      var step := LoadField(ct, content[i], el, obj);
      if step.Err? {
        return step;
      }
      obj := step.value;
      i := i + 1;
    }
    return Ok(obj);
  }

  /** One entry's `fromxml`; 'child' and 'children' load their elements with FromXml. */
  method LoadField(ct: ClassTable, e: Entry, el: Element, obj: Obj) returns (r: Result<Obj, AcornError>)
    decreases el, 1
    ensures r == LoadEntry(ct, e, el, obj)
  {
    match e.src.kind {
      case BaseSrc =>
        return Err(NotImplemented);
      case ChildSrc =>
        if !e.src.meta.ty.ClassRef? {
          return Err(BadType(e.name));
        }
        var c := e.src.meta.ty.cls;
        if c !in ct {
          return Err(UnknownClass(c));
        }
        var found := Find(el.children, ct[c].xmlTag);
        if found.Some? {
          var child := FromXml(ct, c, found.value);
          if child.Err? {
            return Err(child.error);
          }
          return Ok(SetAttr(obj, e.name, Inst(child.value)));
        } else if !e.src.meta.optional {
          return Err(MissingChild(e.name));
        }
        return Ok(obj);
      case ChildrenSrc =>
        if !e.src.meta.ty.ClassRef? {
          return Err(BadType(e.name));
        }
        var c := e.src.meta.ty.cls;
        if c !in ct {
          return Err(UnknownClass(c));
        }
        var kids := FindAll(el.children, ct[c].xmlTag);
        var objs: seq<Obj> := [];
        assert kids[0..] == kids;
        GlueEmpty(LoadAll(ct, c, kids, el));
        var j := 0;
        while j < |kids|
          invariant 0 <= j <= |kids|
          invariant LoadAll(ct, c, kids, el) == Glue(objs, LoadAll(ct, c, kids[j..], el))
        {
          assert kids[j..][0] == kids[j] && kids[j..][1..] == kids[j + 1..];
          assert kids[j] in kids;
          ghost var w :| 0 <= w < |el.children| && el.children[w] == kids[j];
          var child := FromXml(ct, c, kids[j]);
          if child.Err? {
            return Err(child.error);
          }
          assert LoadAll(ct, c, kids[j..], el) == Glue([child.value], LoadAll(ct, c, kids[j + 1..], el));
          GlueAssoc(objs, [child.value], LoadAll(ct, c, kids[j + 1..], el));
          objs := objs + [child.value];
          j := j + 1;
        }
        assert kids[j..] == [] && objs + [] == objs;
        return Ok(SetAttr(obj, e.name, List(Insts(objs))));
      case _ =>
        var v := LoadScalar(e.src.kind, e.name, e.src.meta, el);
        if v.Err? {
          return Err(v.error);
        }
        return Ok(SetAttr(obj, e.name, v.value));
    }
  }

  // ---------------------------------------------------------------------------
  // Saving: Acorn._toxml and the toxml rule of every source
  // ---------------------------------------------------------------------------

  /** `obj._toxml()`: a new element tagged with the class's xml_tag, every entry applied to it. */
  ghost function Save(ct: ClassTable, obj: Obj): (r: Result<Element, AcornError>)
    decreases obj, 3
    ensures r.Ok? ==> obj.cls in ct && r.value.tag == ct[obj.cls].xmlTag
  {
    if obj.cls !in ct then Err(UnknownClass(obj.cls))
    else SaveEntries(ct, ct[obj.cls].content, obj, NewElement(ct[obj.cls].xmlTag))
  }

  /** The save loop of `_toxml`, over the remaining entries. */
  ghost function SaveEntries(ct: ClassTable, es: seq<Entry>, obj: Obj, el: Element): (r: Result<Element, AcornError>)
    decreases obj, 2, |es|
    ensures r.Ok? ==> r.value.tag == el.tag
  {
    if es == [] then Ok(el)
    else
      var el' :- SaveEntry(ct, es[0], obj, el);
      SaveEntries(ct, es[1..], obj, el')
  }

  /** One entry's `toxml`. */
  ghost function SaveEntry(ct: ClassTable, e: Entry, obj: Obj, el: Element): (r: Result<Element, AcornError>)
    decreases obj, 1
    ensures r.Ok? ==> r.value.tag == el.tag
  {
    match e.src.kind
    case BaseSrc => Err(NotImplemented)
    case ChildSrc =>
      if e.name !in obj.fields then
        if e.src.meta.optional then Ok(el) else Err(MissingAttribute(e.name))
      else (
        match obj.fields[e.name]
        case Inst(o) =>
          var k :- Save(ct, o);
          Ok(Append(el, k))
        case _ => Err(NotMappable(e.name)))
    case ChildrenSrc =>
      if e.name !in obj.fields then Err(MissingAttribute(e.name))
      else (
        match obj.fields[e.name]
        case List(items) => SaveEach(ct, e.name, items, el, obj.fields[e.name])
        case Str(s) => if s == "" then Ok(el) else Err(NotMappable(e.name))
        case _ => Err(NotMappable(e.name)))
    case _ => SaveScalar(e.src.kind, e.name, e.src.meta, obj, el)
  }

  /**
   * The loop of the 'children' toxml rule: each item of the list `whole`
   * saves itself under `el`, in list order.
   */
  ghost function SaveEach(ct: ClassTable, name: string, items: seq<Value>, el: Element, whole: Value): (r: Result<Element, AcornError>)
    requires whole.List? && forall v :: v in items ==> v in whole.items
    decreases whole, 0, |items|
    ensures r.Ok? ==> r.value.tag == el.tag && r.value.attrib == el.attrib && r.value.text == el.text
  {
    if items == [] then Ok(el)
    else (
      assert items[0] in items;
      var j :| 0 <= j < |whole.items| && whole.items[j] == items[0];
      match items[0]
      case Inst(o) =>
        var k :- Save(ct, o);
        SaveEach(ct, name, items[1..], Append(el, k), whole)
      case _ => Err(NotMappable(name)))
  }

  /**
   * `obj.toxml(xml_dest)` as the source runs it: create the element, append
   * it under `dest` when one is given, then let each entry write into it.
   */
  method ToXml(ct: ClassTable, obj: Obj, dest: Option<Element>) returns (r: Result<Element, AcornError>, dest': Option<Element>)
    decreases obj, 3
    ensures r == Save(ct, obj)
    ensures r.Ok? ==> obj.cls in ct && r.value.tag == ct[obj.cls].xmlTag
    ensures dest.None? ==> dest' == None
    ensures dest.Some? && r.Ok? ==> dest' == Some(Append(dest.value, r.value))
    ensures r.Err? ==> dest' == dest
  {
    dest' := dest;
    if obj.cls !in ct {
      return Err(UnknownClass(obj.cls)), dest';
    }
    var content := ct[obj.cls].content;
    var el := NewElement(ct[obj.cls].xmlTag);
    var i := 0;
    while i < |content|
      invariant 0 <= i <= |content|
      invariant SaveEntries(ct, content[i..], obj, el) == Save(ct, obj)
    {
      assert content[i..][0] == content[i] && content[i..][1..] == content[i + 1..];
      var step := SaveField(ct, content[i], obj, el);
      if step.Err? {
        return step, dest';
      }
      el := step.value;
      i := i + 1;
    }
    if dest.Some? {
      dest' := Some(Append(dest.value, el));
    }
    return Ok(el), dest';
  }

  /** One entry's `toxml`; 'child' and 'children' save their objects with ToXml under `el`. */
  method SaveField(ct: ClassTable, e: Entry, obj: Obj, el: Element) returns (r: Result<Element, AcornError>)
    decreases obj, 1
    ensures r == SaveEntry(ct, e, obj, el)
  {
    match e.src.kind {
      case BaseSrc =>
        return Err(NotImplemented);
      case ChildSrc =>
        if e.name !in obj.fields {
          if e.src.meta.optional {
            return Ok(el);
          }
          return Err(MissingAttribute(e.name));
        }
        var v := obj.fields[e.name];
        if !v.Inst? {
          return Err(NotMappable(e.name));
        }
        var k, parent := ToXml(ct, v.obj, Some(el));
        if k.Err? {
          return Err(k.error);
        }
        return Ok(parent.value);
      case ChildrenSrc =>
        if e.name !in obj.fields {
          return Err(MissingAttribute(e.name));
        }
        var v := obj.fields[e.name];
        if v.Str? {
          return if v.s == "" then Ok(el) else Err(NotMappable(e.name));
        }
        if !v.List? {
          return Err(NotMappable(e.name));
        }
        var items := v.items;
        var cur := el;
        var j := 0;
        while j < |items|
          invariant 0 <= j <= |items|
          invariant SaveEach(ct, e.name, items[j..], cur, v) == SaveEach(ct, e.name, items, el, v)
        {
          assert items[j..][0] == items[j] && items[j..][1..] == items[j + 1..];
          if !items[j].Inst? {
            return Err(NotMappable(e.name));
          }
          var k, parent := ToXml(ct, items[j].obj, Some(cur));
          if k.Err? {
            return Err(k.error);
          }
          cur := parent.value;
          j := j + 1;
        }
        return Ok(cur);
      case _ =>
        return SaveScalar(e.src.kind, e.name, e.src.meta, obj, el);
    }
  }
}
