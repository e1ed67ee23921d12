/** From an Ollama model name to the manifest file it names, without accepting a file path. */
module ModelPath {
  import opened Text

  const MAX_SEGMENT: nat := 192
  const DEFAULT_REGISTRY := "registry.ollama.ai"

  predicate Alnum(c: char) { '0' <= c <= '9' || 'a' <= c <= 'z' || 'A' <= c <= 'Z' }

  /** `_SEGMENT`, which excludes "." and ".." by its first character. */
  predicate Segment(s: string) {
    && 1 <= |s| <= MAX_SEGMENT && Alnum(s[0])
    && forall i :: 0 <= i < |s| ==> Alnum(s[i]) || s[i] == '.' || s[i] == '_' || s[i] == '-'
  }

  predicate HasPair(s: string) { exists i :: 0 <= i && i + 1 < |s| && s[i] == '.' && s[i + 1] == '.' }

  /** `_REGISTRY` without "..". */
  predicate Registry(s: string) {
    && 1 <= |s| <= MAX_SEGMENT && Alnum(s[0])
    && (forall i :: 0 <= i < |s| ==> Alnum(s[i]) || s[i] == '.' || s[i] == '-')
    && !HasPair(s)
  }

  /** `s.split(sep)` */
  function Split(s: string, sep: char): (parts: seq<string>)
    ensures parts != []
  {
    if s == "" then [""]
    else if s[0] == sep then [""] + Split(s[1..], sep)
    else
      var rest := Split(s[1..], sep);
      [[s[0]] + rest[0]] + rest[1..]
  }

  function Join(parts: seq<string>, sep: char): string
    requires parts != []
  {
    if |parts| == 1 then parts[0] else parts[0] + [sep] + Join(parts[1..], sep)
  }

  function Count(s: string, c: char): nat { if s == "" then 0 else (if s[0] == c then 1 else 0) + Count(s[1..], c) }

  /** `s.partition(":")`, with None when there is no colon. */
  function Partition(s: string): (string, Option<string>) {
    if s == "" then ("", None)
    else if s[0] == ':' then ("", Some(s[1..]))
    else
      var (name, tag) := Partition(s[1..]);
      ([s[0]] + name, tag)
  }

  /** The registry and the repository that the parts of a name stand for. */
  function Repository(parts: seq<string>): Option<(string, seq<string>)>
    requires parts != []
  {
    if '.' in parts[0] && |parts| > 1 then
      if Registry(parts[0]) then Some((parts[0], parts[1..])) else None
    else Some((DEFAULT_REGISTRY, if |parts| > 1 then parts else ["library", parts[0]]))
  }

  predicate Plain(part: string) { part != "" && part != "." && part != ".." }

  /** The namespaces, the model and the tag. */
  function Segments(repository: seq<string>): (r: seq<string>)
    requires repository != []
    ensures |r| == |repository| + 1
  {
    var (name, tag) := Partition(repository[|repository| - 1]);
    repository[..|repository| - 1] + [name, if tag.Some? then tag.value else "latest"]
  }

  predicate AllSegments(parts: seq<string>) { forall i :: 0 <= i < |parts| ==> Segment(parts[i]) }

  /** `manifest_relative_path`: the components of the path. */
  function ManifestPath(model: string): Option<seq<string>> {
    if model == "" || '\\' in model || Count(model, ':') > 1 then None
    else
      var parts := Split(model, '/');
      if exists i :: 0 <= i < |parts| && !Plain(parts[i]) then None
      else
        var (registry, repository) :- Repository(parts);
        if |repository| < 2 || |repository| > 8 || !AllSegments(Segments(repository)) then None
        else Some(["manifests", registry] + Segments(repository))
  }

  // ----- what a path is -----

  /** A component that names one entry of its directory: no separator, not the directory or its parent. */
  predicate Entry(s: string) { Plain(s) && '/' !in s && '\\' !in s && ':' !in s }

  predicate ManifestFile(path: seq<string>) {
    5 <= |path| <= 11 && path[0] == "manifests" && Registry(path[1]) && AllSegments(path[2..])
  }

  lemma DefaultIsRegistry()
    ensures Registry(DEFAULT_REGISTRY)
  {
  }

  /** Whatever the name, an accepted path stays below `manifests`, one directory entry at a time. */
  lemma PathStaysBelow(model: string)
    requires ManifestPath(model).Some?
    ensures var path := ManifestPath(model).value;
            ManifestFile(path) && forall i :: 0 <= i < |path| ==> Entry(path[i])
  {
    hide Split, Count, Segments, AllSegments, Registry, Entry;
    DefaultIsRegistry();
    var path := ManifestPath(model).value;
    var (registry, repository) := Repository(Split(model, '/')).value;
    assert path[2..] == Segments(repository);
    RegistryEntry(path[1]);
    SegmentEntries(path[2..]);
    PlainManifests();
    assert forall i :: 2 <= i < |path| ==> path[i] == path[2..][i - 2];
  }

  lemma PlainManifests()
    ensures Entry("manifests")
  {
  }

  lemma SegmentEntries(parts: seq<string>)
    requires AllSegments(parts)
    ensures forall i :: 0 <= i < |parts| ==> Entry(parts[i])
  {
    forall i | 0 <= i < |parts| ensures Entry(parts[i]) { SegmentEntry(parts[i]); }
  }

  lemma RegistryEntry(s: string)
    requires Registry(s)
    ensures Entry(s)
  {
    assert Alnum(s[0]);
  }

  lemma SegmentEntry(s: string)
    requires Segment(s)
    ensures Entry(s)
  {
    assert Alnum(s[0]);
  }

  // ----- every such path has its name -----

  lemma {:induction false} SplitSolid(s: string, sep: char)
    requires sep !in s
    ensures Split(s, sep) == [s]
  {
    if s != "" {
      assert s == [s[0]] + s[1..];
      SplitSolid(s[1..], sep);
    }
  }

  lemma {:induction false} SplitAfter(s: string, sep: char, rest: string)
    requires sep !in s
    ensures Split(s + [sep] + rest, sep) == [s] + Split(rest, sep)
  {
    var t := s + [sep] + rest;
    if s == "" {
      assert t[1..] == rest;
    } else {
      assert t[1..] == s[1..] + [sep] + rest && s == [s[0]] + s[1..];
      SplitAfter(s[1..], sep, rest);
    }
  }

  lemma {:induction false} SplitJoin(parts: seq<string>, sep: char)
    requires parts != [] && forall i :: 0 <= i < |parts| ==> sep !in parts[i]
    ensures Split(Join(parts, sep), sep) == parts
  {
    if |parts| == 1 {
      SplitSolid(parts[0], sep);
    } else {
      SplitJoin(parts[1..], sep);
      SplitAfter(parts[0], sep, Join(parts[1..], sep));
    }
  }

  lemma {:induction false} CountJoined(a: string, b: string, c: char)
    ensures Count(a + b, c) == Count(a, c) + Count(b, c)
  {
    if a == "" {
      assert a + b == b;
    } else {
      assert (a + b)[1..] == a[1..] + b;
      CountJoined(a[1..], b, c);
    }
  }

  lemma {:induction false} CountNone(s: string, c: char)
    requires c !in s
    ensures Count(s, c) == 0
  {
    if s != "" {
      CountNone(s[1..], c);
    }
  }

  lemma {:induction false} PartitionJoined(name: string, tag: string)
    requires ':' !in name
    ensures Partition(name + ":" + tag) == (name, Some(tag))
  {
    var s := name + ":" + tag;
    if name == "" {
      assert s[1..] == tag;
    } else {
      assert s[1..] == name[1..] + ":" + tag && name == [name[0]] + name[1..];
      PartitionJoined(name[1..], tag);
    }
  }

  /** The name written out in full: registry, namespaces, model and tag. */
  function FullName(path: seq<string>): string
    requires ManifestFile(path)
  {
    var n := |path|;
    Join(path[1..n - 2] + [path[n - 2] + ":" + path[n - 1]], '/')
  }

  lemma {:induction false} JoinedChars(parts: seq<string>, sep: char, c: char)
    requires parts != [] && c != sep
    ensures Count(Join(parts, sep), c) == Counts(parts, c)
  {
    if |parts| > 1 {
      JoinedChars(parts[1..], sep, c);
      CountJoined(parts[0] + [sep], Join(parts[1..], sep), c);
      CountJoined(parts[0], [sep], c);
    }
  }

  function Counts(parts: seq<string>, c: char): nat {
    if parts == [] then 0 else Count(parts[0], c) + Counts(parts[1..], c)
  }

  lemma {:induction false} CountsLast(parts: seq<string>, last: string, c: char)
    requires forall i :: 0 <= i < |parts| ==> c !in parts[i]
    ensures Counts(parts + [last], c) == Count(last, c)
  {
    if parts == [] {
      assert (parts + [last])[1..] == [];
    } else {
      CountNone(parts[0], c);
      assert (parts + [last])[1..] == parts[1..] + [last];
      CountsLast(parts[1..], last, c);
    }
  }

  lemma {:induction false} CountZero(s: string, c: char)
    requires Count(s, c) == 0
    ensures c !in s
  {
    if s != "" {
      CountZero(s[1..], c);
    }
  }

  /** The parts of a full name. */
  function FullParts(path: seq<string>): seq<string>
    requires ManifestFile(path)
  {
    path[1..|path| - 2] + [path[|path| - 2] + ":" + path[|path| - 1]]
  }

  lemma LastPart(path: seq<string>)
    requires ManifestFile(path)
    ensures var last := path[|path| - 2] + ":" + path[|path| - 1];
            && '/' !in last && Plain(last) && Count(last, ':') == 1 && Count(last, '\\') == 0
            && Partition(last) == (path[|path| - 2], Some(path[|path| - 1]))
  {
    var name, tag := path[|path| - 2], path[|path| - 1];
    assert name == path[2..][|path| - 4] && tag == path[2..][|path| - 3];
    SegmentEntry(name);
    SegmentEntry(tag);
    var last := name + ":" + tag;
    forall c: char | c == ':' || c == '\\' ensures Count(last, c) == if c == ':' then 1 else 0 {
      CountNone(name, c);
      CountNone(tag, c);
      CountJoined(name + ":", tag, c);
      CountJoined(name, ":", c);
    }
    PartitionJoined(name, tag);
    assert |last| >= 3;
  }

  /** A name made of entries and a last part passes the checks on its characters, and splits into them. */
  lemma NamePassesChecks(front: seq<string>, last: string)
    requires forall i :: 0 <= i < |front| ==> Entry(front[i])
    requires Plain(last) && '/' !in last && Count(last, ':') <= 1 && Count(last, '\\') == 0
    ensures var model := Join(front + [last], '/');
            && model != "" && '\\' !in model && Count(model, ':') == Count(last, ':')
            && Split(model, '/') == front + [last]
            && forall i :: 0 <= i < |front + [last]| ==> Plain((front + [last])[i])
  {
    var parts := front + [last];
    hide Count, Split, Join, Counts;
    SplitJoin(parts, '/');
    JoinedChars(parts, '/', ':');
    JoinedChars(parts, '/', '\\');
    CountsLast(front, last, ':');
    CountsLast(front, last, '\\');
    CountZero(Join(parts, '/'), '\\');
    assert Join(parts, '/') != "" by { JoinedNotEmpty(parts); }
  }

  lemma JoinedNotEmpty(parts: seq<string>)
    requires parts != [] && parts[0] != ""
    ensures Join(parts, '/') != ""
  {
  }

  lemma FullNamePassesChecks(path: seq<string>)
    requires ManifestFile(path)
    ensures var model := FullName(path);
            && model != "" && '\\' !in model && Count(model, ':') == 1
            && Split(model, '/') == FullParts(path)
            && forall i :: 0 <= i < |FullParts(path)| ==> Plain(FullParts(path)[i])
  {
    var front := path[1..|path| - 2];
    RegistryEntry(path[1]);
    forall i | 0 <= i < |front| ensures Entry(front[i]) {
      assert front[i] == path[i + 1];
      if i > 0 {
        assert front[i] == path[2..][i - 1];
        SegmentEntry(front[i]);
      }
    }
    LastPart(path);
    hide Registry, Segment, Count, Split, Join;
    NamePassesChecks(front, FullParts(path)[|path| - 3]);
  }

  /** Every manifest path whose registry holds a dot is the path of its full name. */
  lemma FullNameRoundTrip(path: seq<string>)
    requires ManifestFile(path) && '.' in path[1]
    ensures ManifestPath(FullName(path)) == Some(path)
  {
    hide Count, Split, Partition, Join, FullName, AllSegments, Registry;
    FullNamePassesChecks(path);
    LastPart(path);
    var parts := FullParts(path);
    var repository := parts[1..];
    assert parts[0] == path[1];
    assert Repository(parts) == Some((path[1], repository));
    var n := |path|;
    assert repository[..|repository| - 1] == path[2..n - 2] && repository[|repository| - 1] == parts[|parts| - 1];
    assert path[2..] == path[2..n - 2] + [path[n - 2], path[n - 1]];
    assert ["manifests", path[1]] + path[2..] == path;
  }

  /** The files that names reach are exactly the manifest files under registries with a dot. */
  lemma ReachedExactly(path: seq<string>)
    ensures (exists model :: ManifestPath(model) == Some(path)) <==> ManifestFile(path) && '.' in path[1]
  {
    if model :| ManifestPath(model) == Some(path) {
      PathStaysBelow(model);
      RegistryHasDot(model);
    }
    if ManifestFile(path) && '.' in path[1] {
      FullNameRoundTrip(path);
    }
  }

  lemma RegistryHasDot(model: string)
    requires ManifestPath(model).Some?
    ensures '.' in ManifestPath(model).value[1]
  {
    hide Split, Count, Segments, AllSegments, Registry;
    assert DEFAULT_REGISTRY[8] == '.';
  }

  // ----- exactly which names a path has -----

  /** The last part of a name: the model and its tag, or the model alone for the tag "latest". */
  predicate LastOf(name: string, tag: string, last: string) {
    last == name + ":" + tag || (last == name && tag == "latest")
  }

  /** The three ways to write a path as a name: with its registry, without the default registry, and, in the
      default registry's library, as a model alone. */
  predicate Spells(model: string, path: seq<string>, last: string)
    requires |path| >= 5
  {
    var n := |path|;
    var names := path[2..n - 2];
    && LastOf(path[n - 2], path[n - 1], last)
    && (|| ('.' in path[1] && model == Join([path[1]] + names + [last], '/'))
        || (path[1] == "registry.ollama.ai" && '.' !in names[0] && model == Join(names + [last], '/'))
        || (path[1] == "registry.ollama.ai" && names == ["library"] && model == last))
  }

  lemma {:induction false} SplitThenJoin(s: string, sep: char)
    ensures Join(Split(s, sep), sep) == s && forall i :: 0 <= i < |Split(s, sep)| ==> sep !in Split(s, sep)[i]
  {
    if s != "" {
      SplitThenJoin(s[1..], sep);
      var rest := Split(s[1..], sep);
      var parts := Split(s, sep);
      if s[0] == sep {
        assert parts[1..] == rest;
      } else {
        assert parts[1..] == rest[1..];
      }
    }
  }

  lemma {:induction false} PartitionExact(s: string)
    ensures var (name, tag) := Partition(s);
            && ':' !in name && s == name + if tag.Some? then ":" + tag.value else ""
  {
    if s != "" && s[0] != ':' {
      PartitionExact(s[1..]);
    }
  }

  lemma {:induction false} PartitionSolid(name: string)
    requires ':' !in name
    ensures Partition(name) == (name, None)
  {
    if name != "" {
      assert name == [name[0]] + name[1..];
      PartitionSolid(name[1..]);
    }
  }

  /** A part that spells a model and a tag passes the checks and is cut into them. */
  lemma LastPasses(name: string, tag: string, last: string)
    requires Segment(name) && Segment(tag) && LastOf(name, tag, last)
    ensures Plain(last) && '/' !in last && Count(last, ':') <= 1 && Count(last, '\\') == 0
    ensures Partition(last).0 == name && tag == if Partition(last).1.Some? then Partition(last).1.value else "latest"
  {
    SegmentEntry(name);
    SegmentEntry(tag);
    forall c: char | c == ':' || c == '\\' ensures Count(last, c) <= if c == ':' then 1 else 0 {
      CountNone(name, c);
      CountNone(tag, c);
      CountJoined(name + ":", tag, c);
      CountJoined(name, ":", c);
    }
    if last == name {
      PartitionSolid(name);
    } else {
      PartitionJoined(name, tag);
      assert |last| >= 3;
    }
  }

  /** The registry and the repository of an accepted name, and how they are written. */
  lemma AcceptedParts(model: string, path: seq<string>) returns (registry: string, repository: seq<string>)
    requires ManifestPath(model) == Some(path)
    ensures |repository| >= 2 && path == ["manifests", registry] + Segments(repository)
    ensures || ('.' in registry && model == Join([registry] + repository, '/'))
            || (registry == "registry.ollama.ai" && '.' !in repository[0] && model == Join(repository, '/'))
            || (registry == "registry.ollama.ai" && repository == ["library", model])
  {
    hide Count, AllSegments, Registry, Segments, Plain;
    var parts := Split(model, '/');
    SplitThenJoin(model, '/');
    registry, repository := Repository(parts).value.0, Repository(parts).value.1;
    if '.' in parts[0] && |parts| > 1 {
      assert [registry] + repository == parts;
    }
  }

  lemma SegmentsCut(repository: seq<string>)
    requires |repository| >= 2
    ensures var m := |repository| - 1;
            && Segments(repository) == repository[..m] + [Segments(repository)[m], Segments(repository)[m + 1]]
            && LastOf(Segments(repository)[m], Segments(repository)[m + 1], repository[m])
  {
    PartitionExact(repository[|repository| - 1]);
  }

  /** What an accepted name is made of. */
  lemma AcceptedIsSpelled(model: string, path: seq<string>)
    requires ManifestPath(model) == Some(path)
    ensures |path| >= 5 && exists last :: Spells(model, path, last)
  {
    var registry, repository := AcceptedParts(model, path);
    hide ManifestPath, Split, Join, Partition, Segments, LastOf;
    SegmentsCut(repository);
    var m := |repository| - 1;
    var front, last := repository[..m], repository[m];
    var name, tag := Segments(repository)[m], Segments(repository)[m + 1];
    assert repository == front + [last];
    assert path == ["manifests", registry] + front + [name, tag];
    SpelledAs(model, registry, front, name, tag, last);
  }

  lemma SpelledAs(model: string, registry: string, front: seq<string>, name: string, tag: string, last: string)
    requires front != [] && LastOf(name, tag, last)
    requires || ('.' in registry && model == Join([registry] + (front + [last]), '/'))
             || (registry == "registry.ollama.ai" && '.' !in front[0] && model == Join(front + [last], '/'))
             || (registry == "registry.ollama.ai" && front + [last] == ["library", model])
    ensures Spells(model, ["manifests", registry] + front + [name, tag], last)
  {
    hide Join, LastOf;
    var path := ["manifests", registry] + front + [name, tag];
    var n := |path|;
    assert path[2..n - 2] == front && path[1] == registry && path[n - 2] == name && path[n - 1] == tag;
    assert [registry] + (front + [last]) == [registry] + front + [last];
    if front + [last] == ["library", model] {
      assert (front + [last])[0] == front[0] && |front| == 1 && (front + [last])[1] == last;
      assert front == ["library"];
    }
  }

  lemma SpelledPath(parts: seq<string>, registry: string, names: seq<string>, name: string, tag: string, last: string)
    requires |names| >= 1 && |names| <= 7 && AllSegments(names) && Segment(name) && Segment(tag)
    requires LastOf(name, tag, last) && parts != [] && Repository(parts) == Some((registry, names + [last]))
    requires Split(Join(parts, '/'), '/') == parts && forall i :: 0 <= i < |parts| ==> Plain(parts[i])
    requires var model := Join(parts, '/'); model != "" && '\\' !in model && Count(model, ':') <= 1
    ensures ManifestPath(Join(parts, '/')) == Some(["manifests", registry] + names + [name, tag])
  {
    hide Split, Count, Segment, Plain, Join, Repository, Partition;
    LastPasses(name, tag, last);
    var repository := names + [last];
    assert repository[..|repository| - 1] == names;
    assert Segments(repository) == names + [name, tag];
    assert ["manifests", registry] + Segments(repository) == ["manifests", registry] + names + [name, tag];
  }

  lemma PathParts(path: seq<string>)
    requires ManifestFile(path)
    ensures var n := |path|;
            var names, name, tag := path[2..n - 2], path[n - 2], path[n - 1];
            && path == ["manifests", path[1]] + names + [name, tag] && Entry(path[1])
            && 1 <= |names| <= 7 && AllSegments(names) && Segment(name) && Segment(tag)
            && forall i :: 0 <= i < |names| ==> Entry(names[i])
  {
    var n := |path|;
    var names, name, tag := path[2..n - 2], path[n - 2], path[n - 1];
    assert name == path[2..][n - 4] && tag == path[2..][n - 3] && names == path[2..][..n - 4];
    RegistryEntry(path[1]);
    SegmentEntries(names);
    hide Segment, Registry, Entry;
  }

  lemma WithRegistry(registry: string, names: seq<string>, name: string, tag: string, last: string)
    requires 1 <= |names| <= 7 && AllSegments(names) && Segment(name) && Segment(tag) && LastOf(name, tag, last)
    requires Registry(registry) && '.' in registry && forall i :: 0 <= i < |names| ==> Entry(names[i])
    ensures ManifestPath(Join([registry] + names + [last], '/')) == Some(["manifests", registry] + names + [name, tag])
  {
    hide Count, Split, Segment, Join, Partition, Entry, Plain, Registry, LastOf, AllSegments, ManifestPath, Segments;
    RegistryEntry(registry);
    LastPasses(name, tag, last);
    var front := [registry] + names;
    assert forall i :: 0 <= i < |front| ==> front[i] == if i == 0 then registry else names[i - 1];
    NamePassesChecks(front, last);
    assert Repository(front + [last]) == Some((registry, names + [last])) by {
      assert (front + [last])[0] == registry && (front + [last])[1..] == names + [last];
    }
    hide Repository;
    SpelledPath(front + [last], registry, names, name, tag, last);
  }

  lemma WithoutRegistry(names: seq<string>, name: string, tag: string, last: string)
    requires 1 <= |names| <= 7 && AllSegments(names) && Segment(name) && Segment(tag) && LastOf(name, tag, last)
    requires '.' !in names[0] && forall i :: 0 <= i < |names| ==> Entry(names[i])
    ensures ManifestPath(Join(names + [last], '/')) == Some(["manifests", "registry.ollama.ai"] + names + [name, tag])
  {
    LastPasses(name, tag, last);
    hide Count, Split, Segment, Join, Partition, Entry, Plain, Registry, LastOf;
    NamePassesChecks(names, last);
    assert (names + [last])[0] == names[0];
    SpelledPath(names + [last], DEFAULT_REGISTRY, names, name, tag, last);
  }

  lemma ModelAlone(name: string, tag: string, last: string)
    requires Segment(name) && Segment(tag) && LastOf(name, tag, last)
    ensures ManifestPath(last) == Some(["manifests", "registry.ollama.ai", "library", name, tag])
  {
    LastPasses(name, tag, last);
    assert Join([last], '/') == last;
    assert Segment("library");
    hide Count, Split, Segment, Join, Partition, Entry, Plain, Registry, LastOf;
    NamePassesChecks([], last);
    assert [] + [last] == [last] && ["library"] + [last] == ["library", last];
    SpelledPath([last], DEFAULT_REGISTRY, ["library"], name, tag, last);
    assert ["manifests", DEFAULT_REGISTRY] + ["library"] + [name, tag]
        == ["manifests", "registry.ollama.ai", "library", name, tag];
  }

  /** Every way of writing a manifest path is accepted. */
  lemma SpelledIsAccepted(model: string, path: seq<string>, last: string)
    requires ManifestFile(path) && Spells(model, path, last)
    ensures ManifestPath(model) == Some(path)
  {
    var n := |path|;
    var names, name, tag := path[2..n - 2], path[n - 2], path[n - 1];
    PathParts(path);
    hide ManifestPath, Segment, Join, Entry, Registry, LastOf, AllSegments;
    if '.' in path[1] && model == Join([path[1]] + names + [last], '/') {
      WithRegistry(path[1], names, name, tag, last);
    } else if '.' !in names[0] && model == Join(names + [last], '/') {
      WithoutRegistry(names, name, tag, last);
    } else {
      ModelAlone(name, tag, last);
      assert ["manifests", path[1]] + ["library"] + [name, tag]
          == ["manifests", "registry.ollama.ai", "library", name, tag];
    }
  }

  /** A name is mapped to a path exactly if it is one of the ways to write it. */
  lemma PathExact(model: string, path: seq<string>)
    ensures ManifestPath(model) == Some(path) <==> ManifestFile(path) && exists last :: Spells(model, path, last)
  {
    hide Spells, ManifestPath, ManifestFile;
    if ManifestPath(model) == Some(path) {
      PathStaysBelow(model);
      AcceptedIsSpelled(model, path);
    }
    if ManifestFile(path) {
      FiveParts(path);
      if last :| Spells(model, path, last) {
        SpelledIsAccepted(model, path, last);
      }
    }
  }

  lemma FiveParts(path: seq<string>)
    requires ManifestFile(path)
    ensures |path| >= 5
  {
  }

  /** ASCII digits and letters, by their codes. */
  predicate LetterOrDigit(c: char) { 48 <= c as int <= 57 || 65 <= c as int <= 90 || 97 <= c as int <= 122 }

  /** The characters of a segment and of a registry, and their lengths: 45 is "-", 46 is "." and 95 is "_". */
  lemma SegmentExact(s: string)
    ensures Segment(s) <==>
            && s != "" && |s| <= 192 && LetterOrDigit(s[0])
            && forall i :: 0 <= i < |s| ==> LetterOrDigit(s[i]) || s[i] as int in {45, 46, 95}
    ensures Registry(s) <==>
            && s != "" && |s| <= 192 && LetterOrDigit(s[0])
            && (forall i :: 0 <= i < |s| ==> LetterOrDigit(s[i]) || s[i] as int in {45, 46})
            && forall i, j :: 0 <= i < j < |s| && s[i] as int == 46 && s[j] as int == 46 ==> j > i + 1
  {
    assert HasPair(s) <==> exists i, j :: 0 <= i < j < |s| && s[i] == '.' && s[j] == '.' && j <= i + 1;
  }
}
