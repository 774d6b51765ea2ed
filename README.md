# acorn in Dafny

acorn maps Python objects to XML and back. A mappable class declares an
`xml_tag` and a schema (`acorn_content`): one entry per attribute, each
naming a *source* that says where the attribute lives in the element:

- `text`: the element's own text;
- `attr`: an attribute of the element;
- `child.text`: the text of the first direct child with a tag (`meta['tag']`, or the attribute name);
- `child`: one nested mappable object, stored as a child element;
- `children`: a list of nested mappable objects, one child element each.

Every source has three rules: a default rule (`create_default`), a load rule
(`fromxml`: convert the raw text with `meta['type']`, fall back to
`meta['default']`, check `meta['options']`) and a save rule (`toxml`:
serialize with `meta.get('str', str)`, then write an attribute or the text,
or append child elements). The `Acorn` base class holds the source registry
shared by every class, one hook list per event for each class, the schema
compiler `parse_content`, construction (defaults, then keyword arguments),
and the recursive `fromxml` and `_toxml` walks.

## Layout

| file | module | what it holds |
|---|---|---|
| `results.dfy` | `Results` | `Option`, `Result` (an error stands for a raised exception) |
| `xml.dfy` | `Xml` | `Element`, `find`, `iterfind`, `append`, with lemmas about them |
| `acorn_base.dfy` | `AcornBase` | values, objects, meta dictionaries, sources, errors; the rules of the three scalar sources |
| `acorn.dfy` | `Acorn` | the class table; construction, load and save as specification functions (`Construct`, `Load`, `Save`) and as the loop-based methods that follow the source (`New`, `FromXml`, `ToXml`), proved equal to them; the rules of `child` and `children` |
| `acorn_registry.dfy` | `AcornRegistry` | the source registry and the hook lists as classes with mutating methods; `parse_content` |
| `acorn_properties.dfy` | `AcornProperties` | what construction sets; the cases of `child`; count and order for `children` |
| `acorn_roundtrip.dfy` | `AcornRoundTrip` | save then load gives the object back |
| `acorn_demo.dfy` | `AcornDemo` | the example classes at the end of acorn.py |

Objects and elements are values. Where Python mutates an object or an
element in place (`setattr`, `xml_el.text = …`, `SubElement`), the model
returns the updated value, and the methods reassign a local variable.

The `text` source reads `xml_el.text` (acorn_base.py:36-37), which never
raises, so its `fromxml` reaches the default branch (acorn_base.py:48-57)
only through another `KeyError`. One such path exists: `meta['type']` is
looked up inside the same `try` (acorn_base.py:79), so a meta dictionary
without `'type'` selects the default even for `text`. The model follows the code: `AcornBase.LoadScalar` takes the
default whenever `'type'` is absent, and `AcornBase.TextSourceIgnoresDefault`
is stated for a meta with a converter.

## Model

| member | source | states |
|---|---|---|
| `Xml.Find` | acorn_base.py:146 | `find` gives nothing exactly when no direct child has the tag; otherwise a direct child with that tag |
| `Xml.FindIsFirst` | acorn_base.py:122 | `find` gives the child at the lowest index that has the tag |
| `Xml.FindAll` | acorn_base.py:215 | `iterfind` gives only direct children with the tag, at most as many as there are children, and nothing exactly when none has the tag |
| `Xml.FindAllAllMatch` | acorn_base.py:215 | when every child has the tag, `iterfind` gives all of them in document order |
| `Xml.FindAppend` | acorn_base.py:129 | children appended after the first match do not change what `find` returns |
| `Xml.FindAllAppend` | acorn_base.py:215 | `iterfind` over two runs of children gives the matches of the first run, then those of the second |
| `Xml.Append` | acorn.py:314-315 | `append` makes the element the last child; earlier children, tag, attributes and text are unchanged |
| `AcornBase.SetAttr` | acorn_base.py:67 | `setattr` sets the attribute and leaves every other attribute as it was |
| `AcornBase.ScalarDefault` | acorn_base.py:17-19 | a default that is not None is set; a None or missing default sets nothing |
| `AcornBase.GetText` | acorn_base.py:119-126 | `text` reads the element's text (line 37); `attr` reads `attrib[name]`, with a KeyError exactly when the attribute is missing (line 106); `child.text` reads the text of the first child tagged `meta.get('tag', name)`, with a KeyError exactly when there is no such child |
| `AcornBase.ProcessFromXml` | acorn_base.py:72-90 | a missing `'type'` gives a KeyError; a converted value is accepted exactly when it is permitted by the options; a rejected value is reported with the value the converter produced |
| `AcornBase.LoadScalar` | acorn_base.py:39-67 | raw text present: the field is the converted value, or the load raises when conversion fails or the value is not permitted; raw text (or `'type'`) missing: the field is `meta['default']` unconverted and unchecked, and the load raises when there is no `'default'` key |
| `AcornBase.Serialize` | acorn_base.py:92-94 | the saved text is `meta['str'](v)` when a serializer is given, and `str(v)` otherwise |
| `AcornBase.SaveScalar` | acorn_base.py:108-130 | a missing attribute raises; `attr` sets only `attrib[name]`, whatever the tag override; `text` sets only the text (line 70); `child.text` appends exactly one new child with the tag and the serialized text |
| `AcornBase.ScalarRoundTrip` | acorn_base.py:39-130 | saving a scalar and loading it back gives the value, when the converter inverts the serializer on it, the value is permitted and no earlier child has the `child.text` tag |
| `AcornBase.TextSourceIgnoresDefault` | acorn_base.py:36-57 | with a converter, the `text` source loads the same whatever the default |
| `AcornBase.SubTextSaveTwiceDuplicates` | acorn_base.py:128-130 | saving a `child.text` field twice into one element leaves two children with the tag |
| `Acorn.Construct` | acorn.py:75-77 | construction yields an instance of the class whose attributes are all schema names |
| `Acorn.DefaultsFrom` | acorn.py:76-77 | the defaults loop keeps the class and adds only schema names |
| `Acorn.CreateDefault` | acorn_base.py:138-140 | `children` starts as []; `child` with a default that is not None holds exactly the default-constructed instance `type()` of its class, and fails exactly when that construction fails (a non-class type fails with `BadType`); any other source with a default that is not None holds it (lines 17-19); no other attribute changes |
| `Acorn.Override` | acorn.py:79-82 | a keyword naming a schema attribute sets it; every other keyword is ignored; the other attributes keep their defaults |
| `Acorn.New` | acorn.py:61-82 | `cls(**kwargs)` succeeds exactly when construction does, and is the constructed instance with the keywords applied |
| `Acorn.ApplyKeywords` | acorn.py:80-82 | the keyword loop gives the keyword overrides |
| `Acorn.OverrideNothing` | acorn.py:265 | without keywords, `cls()` is the defaults alone |
| `Acorn.Load` | acorn.py:250-273 | a loaded object is an instance of the class loaded |
| `Acorn.LoadEntry` | acorn_base.py:142-155 | loading one entry keeps the class and changes no other attribute |
| `Acorn.LoadEntries` | acorn.py:268-269 | the load loop over the schema keeps the class and changes no attribute outside the schema; `AcornRoundTrip.LoadEntriesReads` states what it sets |
| `Acorn.LoadAll` | acorn_base.py:215-216 | loading a run of children gives one object per child |
| `Acorn.FromXml` | acorn.py:250-273 | the loop over the schema computes `Load` |
| `Acorn.LoadField` | acorn_base.py:142-216 | one entry's `fromxml`, including the append loop of `children`, computes `LoadEntry` |
| `Acorn.Save` | acorn.py:308-321 | a saved element is tagged with the class's `xml_tag` |
| `Acorn.SaveEntries` | acorn.py:318-319 | applying the entries keeps the element's tag |
| `Acorn.SaveEntry` | acorn_base.py:157-168 | one entry's `toxml` keeps the element's tag |
| `Acorn.SaveEach` | acorn_base.py:218-220 | saving list items only appends children: tag, attributes and text stay |
| `Acorn.ToXml` | acorn.py:302-321 | `_toxml` computes `Save`; the element's tag is the class's `xml_tag`; with a destination, the element is appended as its last child and earlier children stay; without one, nothing else is touched |
| `Acorn.SaveField` | acorn_base.py:157-220 | one entry's `toxml`, including the loop of `children`, computes `SaveEntry` |
| `AcornRegistry.Compile` | acorn.py:220-244 | `parse_content` succeeds exactly when every `src` is registered, with one compiled source per entry built from the registered source and the entry's own meta; otherwise it raises for the first unregistered `src` |
| `AcornRegistry.CompileDefaultsToAttr` | acorn.py:230 | an entry without `'src'` is compiled with the `attr` source |
| `AcornRegistry.SourceRegistry.constructor` | acorn.py:88-94 | the registry starts with the five built-in sources |
| `AcornRegistry.SourceRegistry.Register` | acorn.py:96-115 | `register_src` maps the name to the source, replacing any earlier entry; every other entry is unchanged |
| `AcornRegistry.SourceRegistry.Unregister` | acorn.py:117-134 | `unregister_src` removes the name; an absent name leaves the registry unchanged without error; every other entry is unchanged |
| `AcornRegistry.SourceRegistry.ParseContent` | acorn.py:220-244 | the loop of `parse_content` computes `Compile` and leaves the registry and its input unchanged |
| `AcornRegistry.AddOnce` | acorn.py:181-185 | a hook is appended only when absent, so a list without duplicates stays without them |
| `AcornRegistry.RemoveFirst` | acorn.py:208-213 | removing a hook drops one occurrence; an absent hook leaves the list unchanged |
| `AcornRegistry.RemoveFirstKeepsOrder` | acorn.py:208-213 | `list.remove` drops exactly the first occurrence and keeps the other hooks in their order, the order in which `_apply_hooks` calls them (line 217) |
| `AcornRegistry.RemoveFirstNoDuplicates` | acorn.py:208-213 | in a list without duplicates, removing a hook removes it altogether and keeps the list without duplicates |
| `AcornRegistry.HookLists.constructor` | acorn.py:21-24 | each class starts with an empty list for 'fromxml' and for 'toxml' |
| `AcornRegistry.HookLists.AddHook` | acorn.py:140-185 | an unknown event raises (KeyError) and changes nothing; otherwise the hook is in the list afterwards, appended once, and the lists stay without duplicates |
| `AcornRegistry.HookLists.RemoveHook` | acorn.py:187-213 | an unknown event or an absent hook changes nothing and raises nothing; otherwise the hook is gone |
| `AcornProperties.DefaultsFromSpec` | acorn.py:75-77 | the defaults loop sets every entry as its `create_default` says, a `child` default being the default-constructed instance of its class, and keeps what was already set |
| `AcornProperties.ConstructSpec` | acorn.py:75-77 | a new instance has `children` attributes set to [], `child` attributes with a default set to the default-constructed instance of their class, other attributes with a default set to it, and nothing else |
| `AcornProperties.KeywordsOverrideDefaults` | acorn.py:79-82 | a keyword naming a schema attribute wins over the default; a name outside the schema is never set |
| `AcornProperties.ChildLoad` | acorn_base.py:142-155 | `child` loads the first direct child tagged with the class's `xml_tag` recursively; without one, an optional entry leaves the attribute as constructed and a required one raises |
| `AcornProperties.ChildSave` | acorn_base.py:157-168 | `child` save: a missing optional attribute appends nothing, a missing required one raises, a present instance whose own save succeeds is appended as the last child, and a successful save appended exactly that element |
| `AcornProperties.LoadAllSpec` | acorn_base.py:215-216 | loading a run of children succeeds exactly when each child loads, and the objects come in document order |
| `AcornProperties.ChildrenLoad` | acorn_base.py:208-216 | `children` load succeeds exactly when every matching direct child loads; the list has one instance per matching child, in document order; no match gives [] and never an error |
| `AcornProperties.SaveEachSpec` | acorn_base.py:219-220 | saving list items appends one element per item, in list order, after the existing children |
| `AcornProperties.ChildrenSave` | acorn_base.py:218-220 | `children` save: a missing attribute raises, the empty string appends nothing, a list appends one element per item in list order and touches nothing else |
| `AcornRoundTrip.SaveEntriesHolds` | acorn.py:318-319 | saving every entry of a fitting object succeeds and leaves in the element what each entry's load reads |
| `AcornRoundTrip.LoadEntriesReads` | acorn.py:268-269 | loading every entry from such an element sets each attribute the object holds to its value |
| `AcornRoundTrip.RoundTrip` | acorn.py:1-3 | saving an object and loading the element back gives the object, when each converter inverts its serializer on the stored value, values are permitted, child tags within a schema are distinct, at most one entry uses `text`, and nested objects fit their own schemas |
| `AcornDemo.ConstructItem` | acorn.py:338-357 | constructing the example Item sets only its `children` list, to [] |
| `AcornDemo.DemoRoundTrip` | acorn.py:383-391 | the example Item with a nested object and two children saves, and loads back unchanged |

## Left out

- File paths: `fromxml` parsing a file and `toxml` writing one with `write_kwargs` (acorn.py:261-263, 293-301) are I/O; only the element paths are modelled.
- Hook invocation (`_apply_hooks`, acorn.py:215-218) calls foreign callables; hooks are opaque identities and only the lists are modelled.
- The metaclass that gives each class its hook lists (acorn.py:17-24) is replaced by an explicit `HookLists` object per class.
- Type converters and serializers are arbitrary Python callables; a converter is a function from the raw text to a value or a failure, and a converter that raises KeyError (which would select the default) is not modelled.
- `str` of an instance or a list is a fixed placeholder text, not Python's rendering.
- `AcornBase.PyStr`: `str` is total on every text in the model; under Python 2, `str` of a unicode value holding non-ASCII characters raises UnicodeEncodeError, so a `'type': str` load (acorn_base.py:79) or a save with the default serializer (acorn_base.py:93-94) of such a value fails in the source but succeeds in the model (the model has no separate byte-string and unicode types).
- Exception types and messages are not modelled; an error names its cause. The missing-child error at acorn_base.py:153-155 refers to an attribute the source object does not have, so Python raises AttributeError there; the model reports it as `MissingChild`.
- Object identity and aliasing: objects and elements are values, so sharing one child object between two parents is not modelled.
- `acorn_content` is a dictionary whose iteration order Python 2 does not fix; the model uses an explicit sequence, and no property depends on the order of entries beyond the round trip, which holds for any order.
- `xml_tag = None` (a class without a tag) is not modelled; every class in the table has a tag.
- A `child` entry whose `'type'` is not a mappable class: construction would call the converter with no argument; the model reports `BadType`.
- A class whose default construction recurses forever (a `child` default of its own class) raises RecursionError in Python; the model detects the cycle and reports `RecursionLimit`.
- Custom sources registered by users are represented by `BaseSrc`, whose load and save raise as in `BaseAcornSource`; their own rules are not modelled.
- The example document load and the printing of the `__main__` block (acorn.py:324-391) are not modelled; only the example classes and the example object's round trip are.
- `Acorn.ToXml`: when an entry fails part-way, the source leaves the half-filled element appended under `xml_dest`; the model returns the error with the destination unchanged.
- `Acorn.Load`, `Acorn.Save`: hooks run after a successful load or save are not part of the result.
