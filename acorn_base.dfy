/**
 * The data model of the mapping engine and the rules of the three scalar
 * sources: 'text' (the element's own text), 'attr' (an attribute of the
 * element) and 'child.text' (the text of the first direct child with a tag).
 *
 * The two object sources, 'child' and 'children', call back into the
 * class-level load and save walks, so their rules live in module Acorn.
 */
module AcornBase {
  import opened Results
  import opened Xml

  /** A Python value held in an object's attribute. */
  datatype Value =
    | Null                      // None
    | Str(s: string)
    | Inst(obj: Obj)            // an instance of a mappable class
    | List(items: seq<Value>)

  /** An instance: its class name and its attribute dictionary. */
  datatype Obj = Obj(cls: string, fields: map<string, Value>)

  /** `setattr(obj, name, v)`. */
  function SetAttr(obj: Obj, name: string, v: Value): (r: Obj)
    ensures r.cls == obj.cls && name in r.fields && r.fields[name] == v
    ensures forall n :: n != name ==> (n in r.fields <==> n in obj.fields)
    ensures forall n :: n != name && n in obj.fields ==> r.fields[n] == obj.fields[n]
  {
    obj.(fields := obj.fields[name := v])
  }

  /**
   * The value of the meta 'type' key: absent, a converter applied to the raw
   * text (None stands for a converter that raised), or a mappable class.
   */
  datatype TypeArg =
    | NoType
    | Converter(convert: Option<string> -> Option<Value>)
    | ClassRef(cls: string)

  /**
   * One attribute's meta dictionary, key by key.
   * default:  None when the key is absent; Some(Null) when it is present and None.
   * options:  `meta.get('options')`, None when absent or None.
   * optional: the truth value of `meta.get('optional')`.
   * ser:      the 'str' serializer, None when absent (then `str` is used).
   */
  datatype Meta = Meta(
    src: Option<string>,
    ty: TypeArg,
    default: Option<Value>,
    options: Option<seq<Value>>,
    optional: bool,
    tag: Option<string>,
    ser: Option<Value -> string>)

  /** The source classes a registry can hold. BaseSrc stands for BaseAcornSource itself. */
  datatype SourceKind = BaseSrc | TextSrc | AttrSrc | SubTextSrc | ChildSrc | ChildrenSrc {
    predicate IsScalar() {
      TextSrc? || AttrSrc? || SubTextSrc?
    }
  }

  /** A compiled source: `src_cons(meta)`, which keeps the meta dictionary itself. */
  datatype Source = Source(kind: SourceKind, meta: Meta)

  /** One schema entry of `acorn_content`. */
  datatype Entry = Entry(name: string, src: Source)

  datatype AcornError =
    | UnknownSource(src: string)              // no source registered under src
    | MissingValue(name: string)              // no raw value and no default
    | InvalidOption(name: string, val: Value) // converted value not among the options
    | ConversionFailed(name: string)          // the type converter raised
    | MissingChild(name: string)              // a required child element is absent
    | MissingAttribute(name: string)          // getattr(obj, name) raised
    | NotImplemented                          // BaseAcornSource.fromxml / toxml
    | BadType(name: string)                   // meta 'type' absent or of the wrong kind
    | NotMappable(name: string)               // a value that has no toxml
    | UnknownClass(cls: string)               // a class the class table does not hold
    | RecursionLimit(cls: string)             // a class whose default construction recurses forever
    | UnknownEvent(event: string)             // a hook event with no hook list

  /** `meta.get('default') is not None`: the test construction uses. */
  predicate HasDefault(meta: Meta) {
    meta.default.Some? && meta.default.value != Null
  }

  /** The value is permitted: no options are set, or it is one of them. */
  predicate Permitted(meta: Meta, v: Value) {
    meta.options.None? || v in meta.options.value
  }

  /** The tag a 'child.text' source reads and writes: `meta.get('tag', name)`. */
  function ChildTextTag(meta: Meta, name: string): string {
    meta.tag.GetOr(name)
  }

  /** `str(v)`. Instances and lists have no fixed rendering; a placeholder stands for it. */
  function PyStr(v: Value): string {
    match v
    case Null => "None"
    case Str(s) => s
    case Inst(o) => "<" + o.cls + " object>"
    case List(_) => "[...]"
  }

  // ---------------------------------------------------------------------------
  // Construction: BaseAcornSource.create_default
  // ---------------------------------------------------------------------------

  /** The default rule shared by every source except 'child' and 'children'. */
  function ScalarDefault(name: string, meta: Meta, obj: Obj): (r: Obj)
    ensures r.cls == obj.cls
    ensures HasDefault(meta) ==> name in r.fields && r.fields[name] == meta.default.value
    ensures !HasDefault(meta) ==> r == obj
    ensures forall n :: n != name ==> (n in r.fields <==> n in obj.fields)
    ensures forall n :: n != name && n in obj.fields ==> r.fields[n] == obj.fields[n]
  {
    if HasDefault(meta) then SetAttr(obj, name, meta.default.value) else obj
  }

  // ---------------------------------------------------------------------------
  // Loading: _get_text, _process_val_fxml and AcornTextSource.fromxml
  // ---------------------------------------------------------------------------

  /** What `_get_text` gives: the raw text (possibly None), or a KeyError. */
  datatype Raw = Present(raw: Option<string>) | KeyMissing

  /** `_get_text` of the three scalar sources. */
  function GetText(kind: SourceKind, meta: Meta, name: string, el: Element): (r: Raw)
    requires kind.IsScalar()
    ensures kind.TextSrc? ==> r == Present(el.text)
    ensures kind.AttrSrc? ==> (r.Present? <==> name in el.attrib)
    ensures kind.AttrSrc? && r.Present? ==> r.raw == Some(el.attrib[name])
    ensures kind.SubTextSrc? ==>
      (r.Present? <==> exists i :: 0 <= i < |el.children| && el.children[i].tag == ChildTextTag(meta, name))
    ensures kind.SubTextSrc? && r.Present? ==>
      r.raw == Find(el.children, ChildTextTag(meta, name)).value.text
  {
    match kind
    case TextSrc => Present(el.text)
    case AttrSrc => if name in el.attrib then Present(Some(el.attrib[name])) else KeyMissing
    case SubTextSrc =>
      match Find(el.children, ChildTextTag(meta, name))
      case None => KeyMissing
      case Some(c) => Present(c.text)
  }

  /** The outcome of the guarded step: a value, a KeyError (which selects the default), or another error. */
  datatype Fetched = Got(v: Value) | KeyErr | Raised(e: AcornError)

  /**
   * `_process_val_fxml`: look up 'type' (a KeyError when absent), convert the
   * raw text, then reject a value outside the options.
   */
  function ProcessFromXml(name: string, meta: Meta, raw: Option<string>): (r: Fetched)
    ensures r.Got? ==> meta.ty.Converter? && meta.ty.convert(raw) == Some(r.v) && Permitted(meta, r.v)
    ensures r.KeyErr? <==> meta.ty.NoType?
    ensures meta.ty.Converter? && meta.ty.convert(raw).Some? ==>
      (r.Got? <==> Permitted(meta, meta.ty.convert(raw).value))
    ensures r.Raised? && r.e.InvalidOption? ==>
      meta.ty.Converter? && meta.ty.convert(raw) == Some(r.e.val) && !Permitted(meta, r.e.val)
  {
    match meta.ty
    case NoType => KeyErr
    case ClassRef(_) => Raised(BadType(name))
    case Converter(convert) =>
      match convert(raw)
      case None => Raised(ConversionFailed(name))
      case Some(v) => if Permitted(meta, v) then Got(v) else Raised(InvalidOption(name, v))
  }

  /** `AcornTextSource.fromxml`, shared by 'text', 'attr' and 'child.text': the value the field gets. */
  function LoadScalar(kind: SourceKind, name: string, meta: Meta, el: Element): (r: Result<Value, AcornError>)
    requires kind.IsScalar()
    // a raw value that converts to a permitted value becomes the field
    ensures GetText(kind, meta, name, el).Present? && meta.ty.Converter? ==>
      var c := meta.ty.convert(GetText(kind, meta, name, el).raw);
      (r.Ok? <==> c.Some? && Permitted(meta, c.value)) && (r.Ok? ==> r.value == c.value)
    // a missing raw value (or a missing 'type') falls back to the default key, unconverted and unchecked
    ensures GetText(kind, meta, name, el).KeyMissing? || meta.ty.NoType? ==>
      r == if meta.default.Some? then Ok(meta.default.value) else Err(MissingValue(name))
    // the 'text' source never lacks a raw value
    ensures kind.TextSrc? && meta.ty.Converter? && r.Ok? ==> meta.ty.convert(el.text) == Some(r.value)
  {
    var fetched := match GetText(kind, meta, name, el)
      case KeyMissing => KeyErr
      case Present(raw) => ProcessFromXml(name, meta, raw);
    match fetched
    case Got(v) => Ok(v)
    case Raised(e) => Err(e)
    case KeyErr => if meta.default.Some? then Ok(meta.default.value) else Err(MissingValue(name))
  }

  // ---------------------------------------------------------------------------
  // Saving: _process_val_txml and the three toxml rules
  // ---------------------------------------------------------------------------

  /** `_process_val_txml`: `meta.get('str', str)(v)`. */
  function Serialize(meta: Meta, v: Value): (s: string)
    ensures meta.ser.None? ==> s == PyStr(v)
    ensures meta.ser.Some? ==> s == meta.ser.value(v)
  {
    match meta.ser
    case None => PyStr(v)
    case Some(f) => f(v)
  }

  /** The toxml rule of a scalar source: what it leaves in the element. */
  function SaveScalar(kind: SourceKind, name: string, meta: Meta, obj: Obj, el: Element): (r: Result<Element, AcornError>)
    requires kind.IsScalar()
    ensures r.Ok? <==> name in obj.fields
    ensures r.Err? ==> r.error == MissingAttribute(name)
    ensures r.Ok? ==> r.value.tag == el.tag
    // 'attr' writes attrib[name], whatever the tag override, and nothing else
    ensures r.Ok? && kind.AttrSrc? ==>
      r.value.attrib == el.attrib[name := Serialize(meta, obj.fields[name])] &&
      r.value.text == el.text && r.value.children == el.children
    // 'text' replaces the element's text and nothing else
    ensures r.Ok? && kind.TextSrc? ==>
      r.value.text == Some(Serialize(meta, obj.fields[name])) &&
      r.value.attrib == el.attrib && r.value.children == el.children
    // 'child.text' appends exactly one new child, never reusing an existing one
    ensures r.Ok? && kind.SubTextSrc? ==>
      r.value.attrib == el.attrib && r.value.text == el.text &&
      r.value.children == el.children +
        [Element(ChildTextTag(meta, name), map[], Some(Serialize(meta, obj.fields[name])), [])]
  {
    if name !in obj.fields then Err(MissingAttribute(name))
    else
      var s := Serialize(meta, obj.fields[name]);
      match kind
      case TextSrc => Ok(el.(text := Some(s)))
      case AttrSrc => Ok(el.(attrib := el.attrib[name := s]))
      case SubTextSrc => Ok(Append(el, Element(ChildTextTag(meta, name), map[], Some(s), [])))
  }

  // ---------------------------------------------------------------------------
  // Properties of the scalar rules
  // ---------------------------------------------------------------------------

  /**
   * Saving a scalar into an element and loading it back gives the value,
   * when the converter inverts the serializer on it, the value is permitted
   * and (for 'child.text') no earlier child carries the tag.
   */
  lemma ScalarRoundTrip(kind: SourceKind, name: string, meta: Meta, obj: Obj, el: Element)
    requires kind.IsScalar() && name in obj.fields
    requires meta.ty.Converter?
    requires meta.ty.convert(Some(Serialize(meta, obj.fields[name]))) == Some(obj.fields[name])
    requires Permitted(meta, obj.fields[name])
    requires kind.SubTextSrc? ==> Find(el.children, ChildTextTag(meta, name)).None?
    ensures SaveScalar(kind, name, meta, obj, el).Ok?
    ensures LoadScalar(kind, name, meta, SaveScalar(kind, name, meta, obj, el).value) == Ok(obj.fields[name])
  {
  }

  /** The 'text' source never falls back to its default while a converter is given. */
  lemma TextSourceIgnoresDefault(name: string, meta: Meta, el: Element, d: Option<Value>)
    requires meta.ty.Converter?
    ensures LoadScalar(TextSrc, name, meta, el) == LoadScalar(TextSrc, name, meta.(default := d), el)
  {
  }

  /**
   * Saving a 'child.text' field twice into one element leaves two children
   * with the tag; loading reads the first one.
   */
  lemma SubTextSaveTwiceDuplicates(name: string, meta: Meta, obj: Obj, el: Element)
    requires name in obj.fields
    requires FindAll(el.children, ChildTextTag(meta, name)) == []
    ensures var once := SaveScalar(SubTextSrc, name, meta, obj, el).value;
            var twice := SaveScalar(SubTextSrc, name, meta, obj, once).value;
            |FindAll(twice.children, ChildTextTag(meta, name))| == 2 &&
            |twice.children| == |el.children| + 2
  {
    var t := ChildTextTag(meta, name);
    var once := SaveScalar(SubTextSrc, name, meta, obj, el).value;
    var twice := SaveScalar(SubTextSrc, name, meta, obj, once).value;
    var k := Element(t, map[], Some(Serialize(meta, obj.fields[name])), []);
    assert twice.children == el.children + [k, k];
    FindAllAppend(el.children, [k, k], t);
    FindAllAllMatch([k, k], t);
  }
}
