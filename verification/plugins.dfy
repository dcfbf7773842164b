/** Plugin discovery (plugins/loader.py): a registry of exporters keyed by id,
    emptied and refilled on every discovery from the candidate files of the
    plugin directory. Loading one candidate (importing it, finding its
    `EXPORTER`, checking it against the exporter protocol) is outside the
    model: each candidate arrives as its outcome, an exporter or `None`, in
    scan order. */
module Plugins {
  import opened Wrappers
  import FilePaths
  import Exporters

  type Exporter = Exporters.ExporterInfo

  /** The loader's state: its directory and the registry, an insertion-ordered
      dictionary (a Python `dict`) held as a sequence of exporters with
      distinct ids. */
  datatype Loader = Loader(directory: FilePaths.FilePath, exporters: seq<Exporter>)

  ghost predicate UniqueIds(es: seq<Exporter>) {
    forall i, j :: 0 <= i < j < |es| ==> es[i].id != es[j].id
  }

  function Ids(es: seq<Exporter>): set<string> {
    set i | 0 <= i < |es| :: es[i].id
  }

  /** `PluginLoader(plugin_directory)`: no discovery happens here. A missing
      or empty argument (`None` or the empty string, `Some([])`) selects the
      `plugins` directory under the working directory. */
  function NewLoader(pluginDirectory: Option<FilePaths.FilePath>, cwd: FilePaths.FilePath): (l: Loader)
    ensures l.exporters == []
    ensures pluginDirectory.Some? && pluginDirectory.value != [] ==> l.directory == pluginDirectory.value
    ensures pluginDirectory.None? || pluginDirectory.value == [] ==> l.directory == FilePaths.Join(cwd, "plugins")
  {
    var directory :=
      if pluginDirectory.Some? && pluginDirectory.value != [] then pluginDirectory.value
      else FilePaths.Join(cwd, "plugins");
    Loader(directory, [])
  }

  lemma IdsCons(e: Exporter, es: seq<Exporter>)
    ensures Ids([e] + es) == {e.id} + Ids(es)
  {
    var r := [e] + es;
    assert r[0].id == e.id;
    forall x | x in Ids(r) ensures x in {e.id} + Ids(es) {
      var i :| 0 <= i < |r| && r[i].id == x;
      if i > 0 { assert es[i - 1].id == x; }
    }
    forall x | x in Ids(es) ensures x in Ids(r) {
      var i :| 0 <= i < |es| && es[i].id == x;
      assert r[i + 1].id == x;
    }
  }

  lemma UniqueCons(e: Exporter, es: seq<Exporter>)
    ensures UniqueIds([e] + es) <==> e.id !in Ids(es) && UniqueIds(es)
  {
    var r := [e] + es;
    if UniqueIds(r) {
      forall i, j | 0 <= i < j < |es| ensures es[i].id != es[j].id {
        assert r[i + 1] == es[i] && r[j + 1] == es[j];
      }
      forall i | 0 <= i < |es| ensures es[i].id != e.id {
        assert r[i + 1] == es[i] && r[0] == e;
      }
    }
    if e.id !in Ids(es) && UniqueIds(es) {
      forall i, j | 0 <= i < j < |r| ensures r[i].id != r[j].id {
        assert r[j] == es[j - 1];
        if i > 0 { assert r[i] == es[i - 1]; }
      }
    }
  }

  /** `dict.get(id)`. */
  function Lookup(es: seq<Exporter>, id: string): (r: Option<Exporter>)
    ensures r.Some? ==> r.value.id == id && r.value in es
    ensures r.None? <==> id !in Ids(es)
  {
    if |es| == 0 then None
    else if es[0].id == id then Some(es[0])
    else
      IdsCons(es[0], es[1..]);
      assert [es[0]] + es[1..] == es;
      Lookup(es[1..], id)
  }

  /** `dict[e.id] = e`: replaces the entry in place, or appends a new one. */
  function Register(es: seq<Exporter>, e: Exporter): (r: seq<Exporter>)
    ensures e in r
    ensures forall x :: x in r ==> x == e || x in es
    ensures forall i :: 0 <= i < |es| && es[i].id != e.id ==> es[i] in r
  {
    if |es| == 0 then [e]
    else if es[0].id == e.id then [e] + es[1..]
    else [es[0]] + Register(es[1..], e)
  }

  /** After `dict[e.id] = e` the id maps to `e` and every other id keeps its entry. */
  lemma {:induction false} RegisterLookup(es: seq<Exporter>, e: Exporter, id: string)
    ensures Lookup(Register(es, e), id) == if id == e.id then Some(e) else Lookup(es, id)
    decreases |es|
  {
    if |es| > 0 && es[0].id != e.id {
      RegisterLookup(es[1..], e, id);
      assert Register(es, e)[1..] == Register(es[1..], e);
    } else if |es| > 0 {
      assert Register(es, e)[1..] == es[1..];
    }
  }

  /** `dict[e.id] = e` adds `e.id` to the keys and nothing else. */
  lemma {:induction false} RegisterIds(es: seq<Exporter>, e: Exporter)
    ensures Ids(Register(es, e)) == Ids(es) + {e.id}
    decreases |es|
  {
    if |es| == 0 {
      IdsCons(e, []);
      assert [e] + [] == [e];
    } else {
      assert es == [es[0]] + es[1..];
      IdsCons(es[0], es[1..]);
      if es[0].id == e.id {
        IdsCons(e, es[1..]);
      } else {
        RegisterIds(es[1..], e);
        IdsCons(es[0], Register(es[1..], e));
      }
    }
  }

  /** `dict[e.id] = e` keeps the ids distinct. */
  lemma {:induction false} RegisterUnique(es: seq<Exporter>, e: Exporter)
    requires UniqueIds(es)
    ensures UniqueIds(Register(es, e))
    decreases |es|
  {
    if |es| == 0 {
    } else {
      assert es == [es[0]] + es[1..];
      UniqueCons(es[0], es[1..]);
      if es[0].id == e.id {
        UniqueCons(e, es[1..]);
      } else {
        RegisterUnique(es[1..], e);
        RegisterIds(es[1..], e);
        UniqueCons(es[0], Register(es[1..], e));
      }
    }
  }

  /** The scan loop: each loaded exporter is registered, each failed candidate skipped. */
  function LoadAll(es: seq<Exporter>, candidates: seq<Option<Exporter>>): (r: seq<Exporter>)
    ensures forall x :: x in r ==> x in es || Some(x) in candidates
    decreases |candidates|
  {
    if |candidates| == 0 then es
    else
      var next := if candidates[0].Some? then Register(es, candidates[0].value) else es;
      LoadAll(next, candidates[1..])
  }

  /** The last exporter in scan order that loaded with the given id: it sits at
      a position after which no candidate loads with that id. */
  function LastLoaded(candidates: seq<Option<Exporter>>, id: string): (r: Option<Exporter>)
    ensures r.Some? ==> r.value.id == id && exists i ::
      && 0 <= i < |candidates|
      && candidates[i] == r
      && forall j :: i < j < |candidates| ==> !(candidates[j].Some? && candidates[j].value.id == id)
    ensures r.None? <==> forall i :: 0 <= i < |candidates| && candidates[i].Some? ==> candidates[i].value.id != id
    decreases |candidates|
  {
    if |candidates| == 0 then None
    else
      var tail := candidates[1..];
      assert forall j :: 1 <= j < |candidates| ==> candidates[j] == tail[j - 1];
      match LastLoaded(tail, id)
      case Some(e) =>
        var i :| && 0 <= i < |tail|
                 && tail[i] == Some(e)
                 && forall j :: i < j < |tail| ==> !(tail[j].Some? && tail[j].value.id == id);
        assert candidates[i + 1] == Some(e);
        Some(e)
      case None =>
        if candidates[0].Some? && candidates[0].value.id == id then candidates[0] else None
  }

  /** The exporter `LastLoaded` names occurs at or after every candidate that
      loaded with its id, so a scan that kept the first match would differ. */
  lemma LastLoadedIsLast(candidates: seq<Option<Exporter>>, id: string)
    ensures LastLoaded(candidates, id).Some? ==>
      forall j :: 0 <= j < |candidates| && candidates[j].Some? && candidates[j].value.id == id ==>
        LastLoaded(candidates, id) in candidates[j..]
  {
    var r := LastLoaded(candidates, id);
    if r.Some? {
      var i :| && 0 <= i < |candidates|
               && candidates[i] == r
               && forall j :: i < j < |candidates| ==> !(candidates[j].Some? && candidates[j].value.id == id);
      forall j | 0 <= j < |candidates| && candidates[j].Some? && candidates[j].value.id == id
        ensures r in candidates[j..]
      {
        assert candidates[j..][i - j] == r;
      }
    }
  }

  lemma {:induction false} LoadAllLookup(es: seq<Exporter>, candidates: seq<Option<Exporter>>, id: string)
    ensures Lookup(LoadAll(es, candidates), id) ==
      if LastLoaded(candidates, id).Some? then LastLoaded(candidates, id) else Lookup(es, id)
    decreases |candidates|
  {
    if |candidates| > 0 {
      var next := if candidates[0].Some? then Register(es, candidates[0].value) else es;
      if candidates[0].Some? { RegisterLookup(es, candidates[0].value, id); }
      LoadAllLookup(next, candidates[1..], id);
    }
  }

  lemma {:induction false} LoadAllUnique(es: seq<Exporter>, candidates: seq<Option<Exporter>>)
    requires UniqueIds(es)
    ensures UniqueIds(LoadAll(es, candidates))
    decreases |candidates|
  {
    if |candidates| > 0 {
      var next := if candidates[0].Some? then Register(es, candidates[0].value) else es;
      if candidates[0].Some? { RegisterUnique(es, candidates[0].value); }
      LoadAllUnique(next, candidates[1..]);
    }
  }

  /** `discover()`: the registry is cleared, then refilled from the candidates
      when the directory exists. The result does not depend on what an earlier
      discovery registered. */
  function Discover(l: Loader, directoryExists: bool, candidates: seq<Option<Exporter>>): (r: Loader)
    ensures r.directory == l.directory
    ensures !directoryExists ==> r.exporters == []
    ensures UniqueIds(r.exporters)
    ensures forall id :: Lookup(r.exporters, id) == (if directoryExists then LastLoaded(candidates, id) else None)
  {
    var registry := if directoryExists then LoadAll([], candidates) else [];
    LoadAllUnique([], candidates);
    forall id ensures Lookup(registry, id) == (if directoryExists then LastLoaded(candidates, id) else None) {
      LoadAllLookup([], candidates, id);
    }
    l.(exporters := registry)
  }

  /** `get_exporters()`: the registered exporters, each listed once. */
  function GetExporters(l: Loader): (r: seq<Exporter>)
    ensures forall i :: 0 <= i < |r| ==> Lookup(l.exporters, r[i].id).Some?
    ensures forall id :: Lookup(l.exporters, id).Some? ==> Lookup(l.exporters, id).value in r
    ensures UniqueIds(l.exporters) ==>
      UniqueIds(r) && forall i :: 0 <= i < |r| ==> Lookup(l.exporters, r[i].id) == Some(r[i])
  {
    UniqueLookupAll(l.exporters);
    l.exporters
  }

  /** In a registry with distinct ids, every entry is what looking up its id finds. */
  lemma UniqueLookupAll(es: seq<Exporter>)
    ensures UniqueIds(es) ==> forall i :: 0 <= i < |es| ==> Lookup(es, es[i].id) == Some(es[i])
  {
    if UniqueIds(es) {
      forall i | 0 <= i < |es| ensures Lookup(es, es[i].id) == Some(es[i]) {
        UniqueLookup(es, i);
      }
    }
  }

  /** `get(id)`: the exporter registered under `id`, or `None`. */
  function Get(l: Loader, id: string): (r: Option<Exporter>)
    ensures r.Some? ==> r.value in GetExporters(l) && r.value.id == id
    ensures r.None? <==> forall i :: 0 <= i < |GetExporters(l)| ==> GetExporters(l)[i].id != id
  {
    Lookup(l.exporters, id)
  }

  /** After a discovery, `get(id)` is the last candidate in scan order that
      loaded with that id, and nothing when the directory is missing. */
  lemma DiscoverGet(l: Loader, directoryExists: bool, candidates: seq<Option<Exporter>>, id: string)
    ensures directoryExists ==> Get(Discover(l, directoryExists, candidates), id) == LastLoaded(candidates, id)
    ensures !directoryExists ==> Get(Discover(l, directoryExists, candidates), id) == None
  {
  }

  /** Repeated discoveries never accumulate: the second one alone decides the registry. */
  lemma DiscoverForgetsEarlierRuns(l: Loader, d1: bool, c1: seq<Option<Exporter>>, d2: bool, c2: seq<Option<Exporter>>)
    ensures Discover(Discover(l, d1, c1), d2, c2) == Discover(l, d2, c2)
  {
  }

  /** The candidates that loaded, in scan order. */
  function Loaded(candidates: seq<Option<Exporter>>): (r: seq<Option<Exporter>>)
    ensures |r| <= |candidates|
    ensures forall i :: 0 <= i < |r| ==> r[i].Some?
  {
    if |candidates| == 0 then []
    else (if candidates[0].Some? then [candidates[0]] else []) + Loaded(candidates[1..])
  }

  /** A candidate that failed to load changes nothing: scanning continues
      as if it were not there. */
  lemma {:induction false} FailuresAreSkipped(es: seq<Exporter>, candidates: seq<Option<Exporter>>)
    ensures LoadAll(es, candidates) == LoadAll(es, Loaded(candidates))
    decreases |candidates|
  {
    if |candidates| > 0 {
      FailuresAreSkipped(if candidates[0].Some? then Register(es, candidates[0].value) else es, candidates[1..]);
      var l := Loaded(candidates);
      if candidates[0].Some? {
        assert l[0] == candidates[0] && l[1..] == Loaded(candidates[1..]);
        assert LoadAll(es, l) == LoadAll(Register(es, candidates[0].value), l[1..]);
      } else {
        assert l == Loaded(candidates[1..]);
      }
    }
  }

  /** `get_exporters()` after a discovery lists one exporter per distinct
      loaded id, each being the last one loaded under its id. */
  lemma DiscoveredExporters(l: Loader, candidates: seq<Option<Exporter>>)
    ensures UniqueIds(GetExporters(Discover(l, true, candidates)))
    ensures forall e :: e in GetExporters(Discover(l, true, candidates)) ==> LastLoaded(candidates, e.id) == Some(e)
    ensures forall i :: 0 <= i < |candidates| && candidates[i].Some? ==>
      candidates[i].value.id in Ids(GetExporters(Discover(l, true, candidates)))
  {
    var es := GetExporters(Discover(l, true, candidates));
    forall e | e in es ensures LastLoaded(candidates, e.id) == Some(e) {
      var i :| 0 <= i < |es| && es[i] == e;
      UniqueLookup(es, i);
      assert Lookup(es, e.id) == LastLoaded(candidates, e.id);
    }
    forall i | 0 <= i < |candidates| && candidates[i].Some?
      ensures candidates[i].value.id in Ids(es)
    {
      assert LastLoaded(candidates, candidates[i].value.id).Some?;
      assert Lookup(es, candidates[i].value.id).Some?;
    }
  }

  /** In a registry with distinct ids, looking up an entry's id finds that entry. */
  lemma {:induction false} UniqueLookup(es: seq<Exporter>, i: nat)
    requires UniqueIds(es) && i < |es|
    ensures Lookup(es, es[i].id) == Some(es[i])
    decreases |es|
  {
    if i > 0 {
      assert es[0].id != es[i].id;
      assert es[1..][i - 1] == es[i];
      UniqueLookup(es[1..], i - 1);
    }
  }

  /** A directory with one valid plugin and one non-conforming module yields
      exactly that plugin; rediscovering once the valid plugin is gone yields none. */
  lemma OneValidOneInvalid(l: Loader, valid: Exporter)
    ensures GetExporters(Discover(l, true, [Some(valid), None])) == [valid]
    ensures GetExporters(Discover(Discover(l, true, [Some(valid), None]), true, [None])) == []
  {
    assert LoadAll([], [Some(valid), None]) == LoadAll([valid], [None]);
    assert LoadAll([valid], [None]) == LoadAll([valid], []);
    assert LoadAll([], [None]) == LoadAll([], []);
  }
}
