/**
 * The mutable state of Acorn: the source registry shared by every class
 * (`__sources__`, with `register_src`, `unregister_src` and the schema
 * compiler `parse_content` that consults it) and the hook lists each
 * mappable class owns (`__hooks__`, with `add_hook` and `remove_hook`).
 */
module AcornRegistry {
  import opened Results
  import opened AcornBase

  /** The five built-in sources, by name. */
  function DefaultSources(): map<string, SourceKind> {
    map[
      "text" := TextSrc,
      "attr" := AttrSrc,
      "child.text" := SubTextSrc,
      "child" := ChildSrc,
      "children" := ChildrenSrc]
  }

  /** `meta.get('src', 'attr')`. */
  function SrcName(meta: Meta): string {
    meta.src.GetOr("attr")
  }

  /**
   * `parse_content`: one compiled source per input entry, built from the
   * registered source its 'src' names and the entry's own meta dictionary;
   * the first unregistered 'src' raises.
   */
  function Compile(sources: map<string, SourceKind>, content: seq<(string, Meta)>): (r: Result<seq<Entry>, AcornError>)
    ensures r.Ok? <==> forall i :: 0 <= i < |content| ==> SrcName(content[i].1) in sources
    ensures r.Ok? ==> |r.value| == |content|
    ensures r.Ok? ==> forall i :: 0 <= i < |content| ==>
      r.value[i] == Entry(content[i].0, Source(sources[SrcName(content[i].1)], content[i].1))
    ensures r.Err? ==>
      exists i :: FirstUnknown(sources, content, i) && r.error == UnknownSource(SrcName(content[i].1))
  {
    if content == [] then Ok([])
    else
      var name := SrcName(content[0].1);
      if name !in sources then
        assert FirstUnknown(sources, content, 0);
        Err(UnknownSource(name))
      else
        var rest := Compile(sources, content[1..]);
        if rest.Err? then
          assert exists i :: FirstUnknown(sources, content, i) && rest.error == UnknownSource(SrcName(content[i].1)) by {
            var i :| FirstUnknown(sources, content[1..], i) && rest.error == UnknownSource(SrcName(content[1..][i].1));
            assert FirstUnknown(sources, content, i + 1);
          }
          Err(rest.error)
        else
          Ok([Entry(content[0].0, Source(sources[name], content[0].1))] + rest.value)
  }

  /** Entry i names an unregistered source and every earlier entry a registered one. */
  ghost predicate FirstUnknown(sources: map<string, SourceKind>, content: seq<(string, Meta)>, i: int) {
    0 <= i < |content| && SrcName(content[i].1) !in sources &&
    forall j :: 0 <= j < i ==> SrcName(content[j].1) in sources
  }

  /** An entry whose meta has no 'src' key is compiled with the 'attr' source. */
  lemma CompileDefaultsToAttr(sources: map<string, SourceKind>, content: seq<(string, Meta)>, i: int)
    requires 0 <= i < |content| && content[i].1.src.None?
    requires Compile(sources, content).Ok?
    ensures "attr" in sources && Compile(sources, content).value[i].src.kind == sources["attr"]
  {
  }

  /** The source registry: `Acorn.__sources__`, one dictionary for every class. */
  class SourceRegistry {
    var sources: map<string, SourceKind>

    constructor()
      ensures sources == DefaultSources()
    {
      sources := DefaultSources();
    }

    /** `register_src`: `name` now maps to `kind`, replacing any earlier entry; nothing else changes. */
    method Register(name: string, kind: SourceKind)
      modifies this
      ensures sources == old(sources)[name := kind]
      ensures name in sources && sources[name] == kind
      ensures forall n :: n != name ==> (n in sources <==> n in old(sources))
      ensures forall n :: n != name && n in sources ==> sources[n] == old(sources)[n]
    {
      sources := sources[name := kind];
    }

    /** `unregister_src`: drops `name` when present; an absent name changes nothing and raises nothing. */
    method Unregister(name: string)
      modifies this
      ensures name !in sources
      ensures name !in old(sources) ==> sources == old(sources)
      ensures forall n :: n != name ==> (n in sources <==> n in old(sources))
      ensures forall n :: n in sources ==> sources[n] == old(sources)[n]
    {
      if name in sources {
        sources := sources - {name};
      }
    }

    /** `parse_content` as the source runs it: a loop filling a new dictionary; the input is only read. */
    method ParseContent(content: seq<(string, Meta)>) returns (r: Result<seq<Entry>, AcornError>)
      ensures r == Compile(sources, content)
    {
      var parsed: seq<Entry> := [];
      var i := 0;
      while i < |content|
        invariant 0 <= i <= |content| && |parsed| == i
        invariant forall j :: 0 <= j < i ==> SrcName(content[j].1) in sources
        invariant forall j :: 0 <= j < i ==>
          parsed[j] == Entry(content[j].0, Source(sources[SrcName(content[j].1)], content[j].1))
      {
        var (name, meta) := content[i];
        var srcName := SrcName(meta);
        if srcName !in sources {
          assert FirstUnknown(sources, content, i);
          FirstUnknownIsUnique(sources, content, i);
          return Err(UnknownSource(srcName));
        }
        parsed := parsed + [Entry(name, Source(sources[srcName], meta))];
        i := i + 1;
      }
      assert Compile(sources, content).Ok?;
      assert Compile(sources, content).value == parsed;
      return Ok(parsed);
    }
  }

  /** Only one entry can be the first unregistered one. */
  lemma FirstUnknownIsUnique(sources: map<string, SourceKind>, content: seq<(string, Meta)>, i: int)
    requires FirstUnknown(sources, content, i)
    ensures forall j :: FirstUnknown(sources, content, j) ==> j == i
  {
  }

  // ---------------------------------------------------------------------------
  // Hooks
  // ---------------------------------------------------------------------------

  /** A hook callable, known only by its identity. */
  type Hook = nat

  predicate NoDuplicates(s: seq<Hook>) {
    forall i, j :: 0 <= i < j < |s| ==> s[i] != s[j]
  }

  /** `if hook not in hlist: hlist.append(hook)`. */
  function AddOnce(s: seq<Hook>, h: Hook): (r: seq<Hook>)
    ensures h in r && forall x :: x in r <==> x in s || x == h
    ensures NoDuplicates(s) ==> NoDuplicates(r)
    ensures h !in s ==> r == s + [h]
    ensures h in s ==> r == s
  {
    if h in s then s else s + [h]
  }

  /** `list.remove(h)`: drops the first occurrence; a missing hook leaves the list as it is. */
  function RemoveFirst(s: seq<Hook>, h: Hook): (r: seq<Hook>)
    ensures h !in s ==> r == s
    ensures h in s ==> |r| == |s| - 1 && multiset(r) == multiset(s) - multiset{h}
    ensures forall x :: x in r ==> x in s
  {
    if s == [] then []
    else
      assert s == [s[0]] + s[1..];
      if s[0] == h then s[1..]
      else [s[0]] + RemoveFirst(s[1..], h)
  }

  /**
   * `list.remove(h)` drops exactly the first occurrence of `h` and keeps the
   * other hooks in their order, the order in which they are called.
   */
  lemma {:induction false} RemoveFirstKeepsOrder(s: seq<Hook>, h: Hook)
    requires h in s
    ensures exists i :: 0 <= i < |s| && s[i] == h && h !in s[..i] && RemoveFirst(s, h) == s[..i] + s[i + 1..]
  {
    var i := RemoveFirstAt(s, h);
  }

  /** The index the first occurrence is removed at, for RemoveFirstKeepsOrder. */
  lemma {:induction false} RemoveFirstAt(s: seq<Hook>, h: Hook) returns (i: nat)
    requires h in s
    ensures i < |s| && s[i] == h && h !in s[..i] && RemoveFirst(s, h) == s[..i] + s[i + 1..]
  {
    if s[0] == h {
      i := 0;
      assert s[..0] == [];
    } else {
      var t := s[1..];
      RemoveFirstCons(s, h);
      var j := RemoveFirstAt(t, h);
      i := j + 1;
      ConsSplit(s, h, j, RemoveFirst(t, h));
    }
  }

  /** Past a head that differs from `h`, removal goes on in the tail, which holds `h`. */
  lemma RemoveFirstCons(s: seq<Hook>, h: Hook)
    requires h in s && s[0] != h
    ensures h in s[1..] && RemoveFirst(s, h) == [s[0]] + RemoveFirst(s[1..], h)
  {
    var k :| 0 <= k < |s| && s[k] == h;
    assert s[1..][k - 1] == h;
  }

  /** Cutting `s[1..]` around index `j` is cutting `s` around `j + 1`, after its head. */
  lemma ConsSplit(s: seq<Hook>, h: Hook, j: nat, r: seq<Hook>)
    requires s != [] && s[0] != h && j < |s| - 1 && h !in s[1..][..j]
    requires r == s[1..][..j] + s[1..][j + 1..]
    ensures [s[0]] + r == s[..j + 1] + s[j + 2..]
    ensures h !in s[..j + 1]
  {
    assert s[..j + 1] == [s[0]] + s[1..][..j];
    assert s[j + 2..] == s[1..][j + 1..];
  }

  /** In a list without duplicates, removing a hook removes it altogether and keeps the list duplicate-free. */
  lemma {:induction false} RemoveFirstNoDuplicates(s: seq<Hook>, h: Hook)
    requires NoDuplicates(s)
    ensures NoDuplicates(RemoveFirst(s, h)) && h !in RemoveFirst(s, h)
  {
    if s != [] && s[0] != h {
      RemoveFirstNoDuplicates(s[1..], h);
      var rest := RemoveFirst(s[1..], h);
      assert RemoveFirst(s, h) == [s[0]] + rest;
      assert s[0] !in s[1..];
    }
  }

  /** The hook lists of one mappable class: `cls.__hooks__`, event name to hooks. */
  class HookLists {
    var lists: map<string, seq<Hook>>

    ghost predicate Valid()
      reads this
    {
      lists.Keys == {"fromxml", "toxml"} &&
      forall e :: e in lists ==> NoDuplicates(lists[e])
    }

    /** What the metaclass gives each class: an empty list per event. */
    constructor()
      ensures Valid()
      ensures lists == map["fromxml" := [], "toxml" := []]
    {
      lists := map["fromxml" := [], "toxml" := []];
    }

    /** `add_hook`: appends the hook unless already there; an unknown event raises (a KeyError). */
    method AddHook(event: string, hook: Hook) returns (err: Option<AcornError>)
      requires Valid()
      modifies this
      ensures Valid()
      ensures event !in old(lists) ==> err == Some(UnknownEvent(event)) && lists == old(lists)
      ensures event in old(lists) ==> err == None && lists == old(lists)[event := AddOnce(old(lists)[event], hook)]
      ensures event in old(lists) ==> hook in lists[event]
    {
      if event !in lists {
        return Some(UnknownEvent(event));
      }
      lists := lists[event := AddOnce(lists[event], hook)];
      return None;
    }

    /** `remove_hook`: removes the hook; an unknown event or an absent hook changes nothing and raises nothing. */
    method RemoveHook(event: string, hook: Hook)
      requires Valid()
      modifies this
      ensures Valid()
      ensures event !in old(lists) ==> lists == old(lists)
      ensures event in old(lists) ==> lists == old(lists)[event := RemoveFirst(old(lists)[event], hook)]
      ensures event in old(lists) && hook !in old(lists)[event] ==> lists == old(lists)
      ensures event in lists ==> hook !in lists[event]
    {
      if event in lists {
        RemoveFirstNoDuplicates(lists[event], hook);
        lists := lists[event := RemoveFirst(lists[event], hook)];
      }
    }
  }
}
