/**
 * The licence material collector and the verbatim material section of the generated document
 * (scripts/generate-third-party-licenses.py). Documents and bodies are byte strings; each byte is
 * written as the character of the same code, so a length is a byte length.
 */
module LicenseMaterial {
  import opened Basics

  datatype Attribution = Attribution(component: string, path: string, kind: string)

  datatype Group = Group(data: string, attributions: seq<Attribution>)

  /** Hashing and UTF-8 validation, as the library provides them. Collisions are not excluded. */
  datatype Library = Library(sha256: string -> string, isUtf8: string -> bool)

  /** One reviewed file: its bytes and where it came from. */
  datatype Material = Material(data: string, attribution: Attribution)

  type Groups = map<string, Group>

  // ----- collecting

  function Add(lib: Library, groups: Groups, m: Material): (out: Result<Groups>)
  {
    var digest := lib.sha256(m.data);
    if !lib.isUtf8(m.data) then Err
    else if digest in groups then
      if groups[digest].data != m.data || m.attribution in groups[digest].attributions then Err
      else Ok(groups[digest := Group(m.data, groups[digest].attributions + [m.attribution])])
    else Ok(groups[digest := Group(m.data, [m.attribution])])
  }

  class MaterialCollector {
    const lib: Library
    var groups: Groups

    constructor (lib: Library)
      ensures this.lib == lib && groups == map[]
    {
      this.lib := lib;
      groups := map[];
    }

    /** A failure ends the generation and leaves the groups as they were. */
    method AddMaterial(m: Material) returns (digest: Result<string>)
      modifies this
      ensures digest == if Add(lib, old(groups), m).Ok? then Ok(lib.sha256(m.data)) else Err
      ensures groups == if digest.Ok? then Add(lib, old(groups), m).value else old(groups)
    {
      if !lib.isUtf8(m.data) {
        return Err;
      }
      var d := lib.sha256(m.data);
      if d in groups {
        if groups[d].data != m.data || m.attribution in groups[d].attributions {
          return Err;
        }
        groups := groups[d := groups[d].(attributions := groups[d].attributions + [m.attribution])];
      } else {
        groups := groups[d := Group(m.data, [m.attribution])];
      }
      return Ok(d);
    }
  }

  function Collect(lib: Library, ms: seq<Material>): (r: Result<Groups>)
  {
    if ms == [] then Ok(map[])
    else
      match Collect(lib, ms[..|ms| - 1])
      case Err => Err
      case Ok(groups) => Add(lib, groups, ms[|ms| - 1])
  }

  /** The attributions of the materials with this digest, in the order they were added. */
  function AttributionsOf(lib: Library, ms: seq<Material>, digest: string): seq<Attribution>
  {
    if ms == [] then []
    else
      var last := ms[|ms| - 1];
      AttributionsOf(lib, ms[..|ms| - 1], digest) + (if lib.sha256(last.data) == digest then [last.attribution] else [])
  }

  predicate NoRepeats(s: seq<Attribution>) {
    forall i, j | 0 <= i < j < |s| :: s[i] != s[j]
  }

  /** The group of one digest: absent if no material has it, else that material's bytes and attributions. */
  ghost predicate GroupIsExact(lib: Library, ms: seq<Material>, groups: Groups, digest: string) {
    if digest in groups then
      && groups[digest].attributions == AttributionsOf(lib, ms, digest)
      && groups[digest].attributions != []
      && NoRepeats(groups[digest].attributions)
      && forall i | 0 <= i < |ms| && lib.sha256(ms[i].data) == digest :: ms[i].data == groups[digest].data
    else AttributionsOf(lib, ms, digest) == []
  }

  lemma {:induction false} AttributionsCome(lib: Library, ms: seq<Material>, digest: string, a: Attribution)
    ensures a in AttributionsOf(lib, ms, digest) <==>
            exists i :: 0 <= i < |ms| && lib.sha256(ms[i].data) == digest && ms[i].attribution == a
  {
    if ms != [] {
      AttributionsCome(lib, ms[..|ms| - 1], digest, a);
      var n := |ms| - 1;
      assert forall i | 0 <= i < n :: ms[..n][i] == ms[i];
    }
  }

  lemma AddKeepsGroupsExact(lib: Library, ms: seq<Material>, groups: Groups, digest: string)
    requires ms != [] && GroupIsExact(lib, ms[..|ms| - 1], groups, digest) && Add(lib, groups, ms[|ms| - 1]).Ok?
    ensures GroupIsExact(lib, ms, Add(lib, groups, ms[|ms| - 1]).value, digest)
  {
    var n := |ms| - 1;
    var m := ms[n];
    assert forall i | 0 <= i < n :: ms[..n][i] == ms[i];
    if lib.sha256(m.data) == digest {
      if digest !in groups {
        forall i | 0 <= i < n && lib.sha256(ms[i].data) == digest
          ensures false
        {
          AttributionsCome(lib, ms[..n], digest, ms[i].attribution);
        }
      }
    }
  }

  /** A successful collection loses no attribution and puts each in exactly the group of its own bytes. */
  lemma {:induction false} CollectionIsExact(lib: Library, ms: seq<Material>, digest: string)
    requires Collect(lib, ms).Ok?
    ensures GroupIsExact(lib, ms, Collect(lib, ms).value, digest)
  {
    if ms != [] {
      CollectionIsExact(lib, ms[..|ms| - 1], digest);
      AddKeepsGroupsExact(lib, ms, Collect(lib, ms[..|ms| - 1]).value, digest);
    }
  }

  /** Two materials that cannot both be collected: a digest collision, or the same attribution twice. */
  predicate Clash(lib: Library, a: Material, b: Material) {
    lib.sha256(a.data) == lib.sha256(b.data) && (a.data != b.data || a.attribution == b.attribution)
  }

  ghost predicate Collectable(lib: Library, ms: seq<Material>) {
    && (forall i | 0 <= i < |ms| :: lib.isUtf8(ms[i].data))
    && (forall i, j | 0 <= i < j < |ms| :: !Clash(lib, ms[i], ms[j]))
  }

  lemma AddSucceedsIff(lib: Library, ms: seq<Material>, groups: Groups, m: Material)
    requires GroupIsExact(lib, ms, groups, lib.sha256(m.data))
    ensures Add(lib, groups, m).Ok? <==> lib.isUtf8(m.data) && forall i | 0 <= i < |ms| :: !Clash(lib, ms[i], m)
  {
    var d := lib.sha256(m.data);
    AttributionsCome(lib, ms, d, m.attribution);
    if d in groups {
      var a := groups[d].attributions[0];
      AttributionsCome(lib, ms, d, a);
      var k :| 0 <= k < |ms| && lib.sha256(ms[k].data) == d && ms[k].attribution == a;
      assert ms[k].data == groups[d].data;
      assert groups[d].data != m.data ==> Clash(lib, ms[k], m);
    } else {
      forall i | 0 <= i < |ms|
        ensures !Clash(lib, ms[i], m)
      {
        AttributionsCome(lib, ms, d, ms[i].attribution);
      }
    }
  }

  /** Collection fails exactly on text that is not UTF-8, a collision, or a repeated attribution. */
  lemma {:induction false} CollectionSucceedsIff(lib: Library, ms: seq<Material>)
    ensures Collect(lib, ms).Ok? <==> Collectable(lib, ms)
  {
    if ms != [] {
      var n := |ms| - 1;
      CollectionSucceedsIff(lib, ms[..n]);
      assert forall i | 0 <= i < n :: ms[..n][i] == ms[i];
      if Collect(lib, ms[..n]).Ok? {
        CollectionIsExact(lib, ms[..n], lib.sha256(ms[n].data));
        AddSucceedsIff(lib, ms[..n], Collect(lib, ms[..n]).value, ms[n]);
      }
    }
  }
}
