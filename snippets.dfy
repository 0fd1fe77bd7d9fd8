/** Text snippets (src-tauri/src/storage/snippets.rs): the stored list, with
    append, replace-first-by-id and remove-all-by-id. Each operation loads
    the list, changes it and writes it back; the JSON file is its decoded
    content. */
module Snippets {
  import opened Wrappers
  import opened Seqs

  /** `Snippet`. */
  datatype Snippet = Snippet(id: string, name: string, trigger: string, content: string)

  /** What reading `snippets.json` finds; an unreadable file counts as
      unparseable. */
  datatype SnippetsFile = Missing | Unparseable | Stored(snippets: seq<Snippet>)

  /** `load_snippets().snippets`: empty unless the file holds a list. */
  function LoadSnippets(file: SnippetsFile): (list: seq<Snippet>)
    ensures file.Stored? ==> list == file.snippets
    ensures !file.Stored? ==> list == []
  {
    if file.Stored? then file.snippets else []
  }

  const NotFoundMessage: string := "Snippet not found"

  /** The position of the first snippet with this id, if any. */
  function FirstWithId(list: seq<Snippet>, id: string): (r: Option<nat>)
    ensures r.Some? ==> r.value < |list| && list[r.value].id == id
    ensures r.Some? ==> forall k :: 0 <= k < r.value ==> list[k].id != id
    ensures r.None? ==> forall k :: 0 <= k < |list| ==> list[k].id != id
    decreases |list|
  {
    if list == [] then None
    else if list[0].id == id then Some(0)
    else match FirstWithId(list[1..], id)
      case Some(i) => Some(i + 1)
      case None => None
  }

  /** Whether `retain` keeps a snippet. */
  function KeepOther(id: string): Snippet -> bool {
    (s: Snippet) => s.id != id
  }

  /** The list after `retain(|s| s.id != id)`. */
  function WithoutId(list: seq<Snippet>, id: string): seq<Snippet> {
    Filter(list, KeepOther(id))
  }

  /** The stored file. */
  class SnippetStorage {
    var file: SnippetsFile

    constructor(file: SnippetsFile)
      ensures this.file == file
    {
      this.file := file;
    }

    method Load() returns (list: seq<Snippet>)
      ensures list == LoadSnippets(file)
    {
      if file.Stored? {
        list := file.snippets;
      } else {
        list := [];
      }
    }

    /** Writing the list, with the outcome of the write. */
    method Save(list: seq<Snippet>, written: Outcome) returns (r: Outcome)
      modifies this
      ensures r == written
      ensures file == if written.Pass? then Stored(list) else old(file)
    {
      r := written;
      if written.Pass? {
        file := Stored(list);
      }
    }

    /** `add_snippet`: appended at the end, whatever its id. */
    method AddSnippet(snippet: Snippet, written: Outcome) returns (r: Outcome)
      modifies this
      ensures r == written
      ensures file == if written.Pass? then Stored(LoadSnippets(old(file)) + [snippet]) else old(file)
    {
      var list := Load();
      list := list + [snippet];
      r := Save(list, written);
    }

    /** `update_snippet`: the first snippet with the id is overwritten by the
        given one, its id included; with none, nothing is written. */
    method UpdateSnippet(id: string, snippet: Snippet, written: Outcome) returns (r: Outcome)
      modifies this
      ensures FirstWithId(LoadSnippets(old(file)), id).None? ==> r == Fail(NotFoundMessage) && file == old(file)
      ensures FirstWithId(LoadSnippets(old(file)), id).Some? ==>
                r == written &&
                file == (if written.Pass? then
                           Stored(LoadSnippets(old(file))[FirstWithId(LoadSnippets(old(file)), id).value := snippet])
                         else old(file))
    {
      var list := Load();
      var i := 0;
      while i < |list| && list[i].id != id
        invariant 0 <= i <= |list|
        invariant forall k :: 0 <= k < i ==> list[k].id != id
        decreases |list| - i
      {
        i := i + 1;
      }
      FirstWithIdAt(list, id, i);
      if i == |list| {
        return Fail(NotFoundMessage);
      }
      list := list[i := snippet];
      r := Save(list, written);
    }

    /** `remove_snippet`: every snippet with the id goes, the rest keep
        their order. */
    method RemoveSnippet(id: string, written: Outcome) returns (r: Outcome)
      modifies this
      ensures r == written
      ensures file == if written.Pass? then Stored(WithoutId(LoadSnippets(old(file)), id)) else old(file)
    {
      var list := Load();
      var kept: seq<Snippet> := [];
      var i := 0;
      while i < |list|
        invariant 0 <= i <= |list|
        invariant kept == WithoutId(list[..i], id)
        invariant file == old(file)
        decreases |list| - i
      {
        FilterAppend(list[..i], [list[i]], KeepOther(id));
        assert list[..i + 1] == list[..i] + [list[i]];
        assert Filter([list[i]], KeepOther(id)) == (if list[i].id != id then [list[i]] else []) + Filter([], KeepOther(id));
        if list[i].id != id {
          kept := kept + [list[i]];
        }
        i := i + 1;
      }
      assert list[..|list|] == list;
      r := Save(kept, written);
    }
  }

  // ---------------------------------------------------------------------
  // Properties

  /** The search loop stops at the first match, or at the end when there is
      none. */
  lemma FirstWithIdAt(list: seq<Snippet>, id: string, i: nat)
    requires i <= |list|
    requires forall k :: 0 <= k < i ==> list[k].id != id
    requires i < |list| ==> list[i].id == id
    ensures FirstWithId(list, id) == if i < |list| then Some(i) else None
  {
    var r := FirstWithId(list, id);
    if r.Some? {
      assert r.value >= i;
      if i < |list| {
        assert r.value <= i;
      }
    }
  }

  /** Replacing the first match keeps the length and every other entry,
      and puts the given snippet in its place. */
  lemma UpdateReplacesFirst(list: seq<Snippet>, id: string, snippet: Snippet, k: nat)
    requires FirstWithId(list, id).Some?
    requires k < |list|
    ensures var i := FirstWithId(list, id).value;
            var updated := list[i := snippet];
            && |updated| == |list|
            && updated[i] == snippet
            && (k != i ==> updated[k] == list[k])
            && (forall j :: 0 <= j < i ==> updated[j].id != id)
  {
  }

  /** Removing keeps exactly the snippets with another id, in their order;
      an id nobody has leaves the list as it was. */
  lemma RemoveKeepsOthers(list: seq<Snippet>, id: string, s: Snippet)
    ensures s in WithoutId(list, id) <==> s in list && s.id != id
    ensures IsSubsequence(WithoutId(list, id), list)
    ensures (forall k :: 0 <= k < |list| ==> list[k].id != id) ==> WithoutId(list, id) == list
  {
    FilterMembers(list, KeepOther(id), s);
    FilterIsSubsequence(list, KeepOther(id));
    if forall k :: 0 <= k < |list| ==> list[k].id != id {
      FilterAllPass(list, KeepOther(id));
    }
  }

  /** Removing twice is removing once. */
  lemma RemoveIdempotent(list: seq<Snippet>, id: string)
    ensures WithoutId(WithoutId(list, id), id) == WithoutId(list, id)
  {
    var kept := WithoutId(list, id);
    forall k | 0 <= k < |kept|
      ensures kept[k].id != id
    {
      FilterMembers(list, KeepOther(id), kept[k]);
    }
    FilterAllPass(kept, KeepOther(id));
  }

  /** Adding then removing by a fresh id restores nothing but what was
      there: the added snippet goes with the others sharing its id. */
  lemma AddThenRemove(list: seq<Snippet>, snippet: Snippet)
    ensures WithoutId(list + [snippet], snippet.id) == WithoutId(list, snippet.id)
  {
    FilterAppend(list, [snippet], KeepOther(snippet.id));
    assert Filter([snippet], KeepOther(snippet.id)) == Filter([], KeepOther(snippet.id));
  }
}
