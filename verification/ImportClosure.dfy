/**
 * The JavaScript a visit downloads before the first screen: a search over static imports.
 */
module ImportClosure {

  /** `size` is the chunk's weight as delivered. */
  datatype Chunk = Chunk(isEntry: bool, imports: seq<string>, size: nat)

  type Bundle = map<string, Chunk>

  /** `path` goes from chunk to chunk of the bundle by static imports. */
  ghost predicate IsPath(chunks: Bundle, path: seq<string>) {
    && (forall i :: 0 <= i < |path| ==> path[i] in chunks)
    && forall i :: 0 <= i < |path| - 1 ==> path[i + 1] in chunks[path[i]].imports
  }

  ghost predicate Reaches(chunks: Bundle, from: string, to: string) {
    exists path :: IsPath(chunks, path) && path != [] && path[0] == from && path[|path| - 1] == to
  }

  ghost predicate NeededFirst(chunks: Bundle, name: string) {
    exists entry :: entry in chunks && chunks[entry].isEntry && Reaches(chunks, entry, name)
  }

  /** Imports that name no chunk of the bundle lead nowhere. */
  ghost predicate ClosedAt(chunks: Bundle, files: set<string>, name: string) {
    name in chunks && forall next :: next in chunks[name].imports && next in chunks ==> next in files
  }

  lemma {:induction false} PathStays(chunks: Bundle, files: set<string>, path: seq<string>)
    requires IsPath(chunks, path) && path != [] && path[0] in files
    requires forall name :: name in files ==> ClosedAt(chunks, files, name)
    ensures path[|path| - 1] in files
    decreases |path|
  {
    if |path| > 1 {
      assert ClosedAt(chunks, files, path[0]);
      assert path[1] in chunks[path[0]].imports;
      assert IsPath(chunks, path[1..]) by {
        forall i | 0 <= i < |path[1..]| - 1 ensures path[1..][i + 1] in chunks[path[1..][i]].imports {
          assert path[(i + 1) + 1] in chunks[path[i + 1]].imports;
        }
      }
      PathStays(chunks, files, path[1..]);
    }
  }

  lemma {:induction false} ReachesItself(chunks: Bundle, name: string)
    requires name in chunks
    ensures Reaches(chunks, name, name)
  {
    assert IsPath(chunks, [name]);
  }

  lemma {:induction false} ReachesThrough(chunks: Bundle, from: string, next: string, to: string)
    requires from in chunks && next in chunks[from].imports && Reaches(chunks, next, to)
    ensures Reaches(chunks, from, to)
  {
    var path :| IsPath(chunks, path) && path != [] && path[0] == next && path[|path| - 1] == to;
    var longer := [from] + path;
    forall i | 0 <= i < |longer| - 1 ensures longer[i + 1] in chunks[longer[i]].imports {
      if i > 0 { assert path[(i - 1) + 1] in chunks[path[i - 1]].imports; }
    }
    assert IsPath(chunks, longer);
  }

  // ---------------------------------------------------------------- weight

  ghost function WeightOf(chunks: Bundle, files: set<string>): nat
    requires files <= chunks.Keys
    decreases |files|
  {
    if files == {} then 0
    else
      var name :| name in files;
      chunks[name].size + WeightOf(chunks, files - {name})
  }

  /** The weight does not depend on the order in which the files are taken. */
  lemma {:induction false} WeightByAny(chunks: Bundle, files: set<string>, name: string)
    requires files <= chunks.Keys && name in files
    ensures WeightOf(chunks, files) == chunks[name].size + WeightOf(chunks, files - {name})
    decreases |files|
  {
    var first :| first in files && WeightOf(chunks, files) == chunks[first].size + WeightOf(chunks, files - {first});
    if first != name {
      WeightByAny(chunks, files - {first}, name);
      WeightByAny(chunks, files - {name}, first);
      assert files - {first} - {name} == files - {name} - {first};
    }
  }

  // ---------------------------------------------------------------- the search

  class Search {
    const chunks: Bundle
    var files: set<string>

    constructor (chunks: Bundle)
      ensures this.chunks == chunks && files == {}
    {
      this.chunks, files := chunks, {};
    }

    /**
     * Visits a chunk and everything it needs that was not visited before. What it adds is
     * reachable from the chunk and complete: none of it imports a chunk left out.
     */
    method Visit(name: string)
      requires name in chunks && files <= chunks.Keys
      modifies this
      ensures old(files) <= files <= chunks.Keys && name in files
      ensures forall f :: f in files && f !in old(files) ==> Reaches(chunks, name, f) && ClosedAt(chunks, files, f)
      decreases chunks.Keys - files
    {
      if name in files { return; }
      ghost var before := files;
      files := files + {name};
      ReachesItself(chunks, name);
      var imports := chunks[name].imports;
      for i := 0 to |imports|
        invariant before + {name} <= files <= chunks.Keys
        invariant forall f :: f in files && f !in before ==> Reaches(chunks, name, f)
        invariant forall f :: f in files && f !in before && f != name ==> ClosedAt(chunks, files, f)
        invariant forall k :: 0 <= k < i && imports[k] in chunks ==> imports[k] in files
      {
        if imports[i] in chunks {
          ghost var known := files;
          assert name in chunks.Keys - before && name !in chunks.Keys - known;
          Visit(imports[i]);
          forall f | f in files && f !in before ensures Reaches(chunks, name, f) {
            if f !in known { ReachesThrough(chunks, name, imports[i], f); }
          }
        }
      }
    }

    /**
     * The whole search: it ends on any bundle, cyclic or with imports that lead nowhere,
     * with exactly the chunks some entry reaches.
     */
    method Collect()
      requires files == {}
      modifies this
      ensures files <= chunks.Keys
      ensures forall name :: name in files <==> NeededFirst(chunks, name)
    {
      hide Reaches, IsPath, NeededFirst;
      var left := chunks.Keys;
      while left != {}
        invariant left <= chunks.Keys && files <= chunks.Keys
        invariant forall name :: name in chunks && name !in left && chunks[name].isEntry ==> name in files
        invariant forall f :: f in files ==> NeededFirst(chunks, f)
        invariant forall f :: f in files ==> ClosedAt(chunks, files, f)
        decreases |left|
      {
        var name :| name in left;
        left := left - {name};
        if chunks[name].isEntry {
          ghost var known := files;
          Visit(name);
          forall f | f in files && f !in known ensures NeededFirst(chunks, f) { EntryNeeds(chunks, name, f); }
        }
      }
      forall f | NeededFirst(chunks, f) ensures f in files { NeededIsFound(chunks, files, f); }
      forall name ensures name in files <==> NeededFirst(chunks, name) {
        if name in files { assert NeededFirst(chunks, name); }
      }
    }

    /** The collected files' weight, each counted once whatever the order. */
    method InitialBytes() returns (bytes: nat)
      requires files == {}
      modifies this
      ensures files <= chunks.Keys
      ensures forall name :: name in files <==> NeededFirst(chunks, name)
      ensures bytes == WeightOf(chunks, files)
    {
      hide NeededFirst, WeightOf;
      Collect();
      bytes := 0;
      var rest, found := files, files;
      EmptyWeighsNothing(chunks);
      while rest != {}
        invariant rest <= files <= chunks.Keys && files == found
        invariant bytes + WeightOf(chunks, rest) == WeightOf(chunks, files)
        decreases |rest|
      {
        var name :| name in rest;
        WeightByAny(chunks, rest, name);
        bytes := bytes + chunks[name].size;
        rest := rest - {name};
      }
    }
  }

  lemma {:induction false} EmptyWeighsNothing(chunks: Bundle)
    ensures WeightOf(chunks, {}) == 0
  {
  }

  lemma {:induction false} EntryNeeds(chunks: Bundle, entry: string, name: string)
    requires entry in chunks && chunks[entry].isEntry && Reaches(chunks, entry, name)
    ensures NeededFirst(chunks, name)
  {
  }

  lemma {:induction false} NeededIsFound(chunks: Bundle, files: set<string>, name: string)
    requires forall entry :: entry in chunks && chunks[entry].isEntry ==> entry in files
    requires forall f :: f in files ==> ClosedAt(chunks, files, f)
    requires NeededFirst(chunks, name)
    ensures name in files
  {
    var entry :| entry in chunks && chunks[entry].isEntry && Reaches(chunks, entry, name);
    var path :| IsPath(chunks, path) && path != [] && path[0] == entry && path[|path| - 1] == name;
    PathStays(chunks, files, path);
  }
}
