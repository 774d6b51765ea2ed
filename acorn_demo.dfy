/**
 * The example classes of acorn.py (Item with a name attribute, a
 * 'child.text' description, a nested object and a list of children):
 * constructing an Item sets only its list of children, and the example Item
 * survives a save and a load.
 */
module AcornDemo {
  import opened Results
  import opened AcornBase
  import opened Acorn
  import opened AcornRoundTrip

  /** `'type': str`: the raw text itself, and the text "None" for a missing one. */
  function StrType(): TypeArg {
    Converter((raw: Option<string>) => Some(Str(raw.GetOr("None"))))
  }

  /** A meta dictionary holding only 'src' and 'type'. */
  function SrcType(src: string, ty: TypeArg): Meta {
    Meta(Some(src), ty, None, None, false, None, None)
  }

  function NameEntry(): Entry {
    Entry("name", Source(AttrSrc, SrcType("attr", StrType())))
  }

  function DemoTable(): ClassTable {
    map[
      "NestedObject" := ClassDecl("nested_object", [NameEntry()]),
      "Child" := ClassDecl("child", [NameEntry()]),
      "Item" := ClassDecl("item", ItemEntries())]
  }

  function Named(cls: string, name: string): Obj {
    Obj(cls, map["name" := Str(name)])
  }

  /** Constructing a one-attribute class sets nothing: its name has no default. */
  lemma ConstructNamed(cls: string)
    requires cls == "NestedObject" || cls == "Child"
    ensures Construct(DemoTable(), cls, {}) == Ok(Obj(cls, map[]))
  {
  }

  function ItemEntries(): seq<Entry> {
    [NameEntry(),
     Entry("description", Source(SubTextSrc, SrcType("child.text", StrType()))),
     Entry("nested_object", Source(ChildSrc, SrcType("child", ClassRef("NestedObject")))),
     Entry("children", Source(ChildrenSrc, SrcType("children", ClassRef("Child"))))]
  }

  /** The Item entries after the name set nothing but the 'children' list. */
  lemma ItemDefaultsTail()
    ensures DefaultsFrom(DemoTable(), ItemEntries()[1..], {"Item"}, Obj("Item", map[])) ==
      Ok(Obj("Item", map["children" := List([])]))
  {
  }

  /** Constructing an Item sets only its 'children' list, to []. */
  lemma ConstructItem()
    ensures Construct(DemoTable(), "Item", {}) == Ok(Obj("Item", map["children" := List([])]))
  {
    var ct := DemoTable();
    assert ct["Item"].content == ItemEntries();
    ItemDefaultsTail();
    assert {} + {"Item"} == {"Item"};
  }

  /** The example object of the source's second half. */
  function DemoItem(): Obj {
    Obj("Item", map[
      "name" := Str("test"),
      "description" := Str("yes, just a test"),
      "nested_object" := Inst(Named("NestedObject", "nester")),
      "children" := List([Inst(Named("Child", "1")), Inst(Named("Child", "2"))])])
  }

  /** A one-attribute object with a string name fits its schema. */
  lemma NamedFits(cls: string, name: string)
    requires cls == "NestedObject" || cls == "Child"
    ensures Fits(DemoTable(), Named(cls, name))
  {
  }

  /** The Item schema: distinct names, one 'child.text', 'child' and 'children' tag each, all different. */
  lemma ItemSchemaFits()
    ensures SchemaFits(DemoTable(), ItemEntries())
    ensures Names(ItemEntries()) == {"name", "description", "nested_object", "children"}
  {
    var ct := DemoTable();
    var es := ItemEntries();
    assert ChildTag(ct, es[0]) == None;
    assert ChildTag(ct, es[1]) == Some("description");
    assert ChildTag(ct, es[2]) == Some("nested_object");
    assert ChildTag(ct, es[3]) == Some("child");
    assert es[0].name == "name" && es[1].name == "description";
    assert es[2].name == "nested_object" && es[3].name == "children";
  }

  /** Each attribute of the example Item fits its entry. */
  lemma ItemEntriesFit()
    requires Fits(DemoTable(), Named("NestedObject", "nester"))
    requires Fits(DemoTable(), Named("Child", "1")) && Fits(DemoTable(), Named("Child", "2"))
    ensures forall i :: 0 <= i < |ItemEntries()| ==> EntryFits(DemoTable(), ItemEntries()[i], DemoItem())
  {
  }

  /** The example Item fits its schema. */
  lemma ItemFits()
    requires Fits(DemoTable(), Named("NestedObject", "nester"))
    requires Fits(DemoTable(), Named("Child", "1")) && Fits(DemoTable(), Named("Child", "2"))
    ensures Fits(DemoTable(), DemoItem())
  {
    var ct := DemoTable();
    var es := ItemEntries();
    var o := DemoItem();
    assert ct["Item"].content == es;
    ConstructItem();
    ItemSchemaFits();
    ItemEntriesFit();
  }

  /** The example object saves, and loading what it saved gives it back. */
  lemma DemoRoundTrip()
    ensures Save(DemoTable(), DemoItem()).Ok?
    ensures Load(DemoTable(), "Item", Save(DemoTable(), DemoItem()).value) == Ok(DemoItem())
  {
    var ct := DemoTable();
    NamedFits("NestedObject", "nester");
    NamedFits("Child", "1");
    NamedFits("Child", "2");
    ItemFits();
    RoundTrip(ct, DemoItem());
  }
}
