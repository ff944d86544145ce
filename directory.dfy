/**
 * The probe-server directory returned by the testing service and the one
 * pass over it that collects the continent and country names and the two
 * probe selections (North America and Eurasia) used by the jobs.
 */
module Directory {
  import opened Filtering

  /** One directory record; coordinates stay the strings the service sends. */
  datatype Probe = Probe(name: string, continentName: string, country: string, latitude: string, longitude: string)

  /** The North American selection tests the country only. */
  predicate IsNorthAmerican(p: Probe) {
    p.country == "United States" || p.country == "Canada"
  }

  /** The Eurasian selection tests the continent only. */
  predicate IsEurasian(p: Probe) {
    p.continentName == "Eurasia"
  }

  /** The names of the given probes, in order. */
  function Names(ps: seq<Probe>): (r: seq<string>)
    ensures |r| == |ps|
    ensures forall i :: 0 <= i < |ps| ==> r[i] == ps[i].name
  {
    if ps == [] then [] else [ps[0].name] + Names(ps[1..])
  }

  lemma {:induction false} NamesConcat(a: seq<Probe>, b: seq<Probe>)
    ensures Names(a + b) == Names(a) + Names(b)
  {
    assert |Names(a + b)| == |Names(a) + Names(b)|;
    forall i | 0 <= i < |a + b|
      ensures Names(a + b)[i] == (Names(a) + Names(b))[i]
    {
      if i >= |a| {
        assert (a + b)[i] == b[i - |a|];
      }
    }
  }

  /** The continent names that occur in the given probes. */
  function Continents(ps: seq<Probe>): set<string> {
    set p | p in ps :: p.continentName
  }

  /** The country names that occur in the given probes. */
  function Countries(ps: seq<Probe>): set<string> {
    set p | p in ps :: p.country
  }

  lemma PlacesSnoc(ps: seq<Probe>, d: Probe)
    ensures Continents(ps + [d]) == Continents(ps) + {d.continentName}
    ensures Countries(ps + [d]) == Countries(ps) + {d.country}
  {
    assert forall p :: p in ps + [d] <==> p in ps || p == d;
  }

  /** The names of the probes a selection keeps, in directory order. */
  function Selection(servers: seq<Probe>, keep: Probe -> bool): seq<string> {
    Names(Filter(servers, keep))
  }

  /** Appending a record appends its name to a selection exactly when the record passes. */
  lemma SelectionSnoc(ps: seq<Probe>, d: Probe, keep: Probe -> bool)
    ensures Selection(ps + [d], keep) == Selection(ps, keep) + (if keep(d) then [d.name] else [])
  {
    FilterSnoc(ps, d, keep);
    NamesConcat(Filter(ps, keep), if keep(d) then [d] else []);
  }

  /**
   * The directory pass: the set of continent names, the set of country
   * names, and the North American and Eurasian name lists. The two
   * selections are independent tests, so a probe may be in both lists.
   */
  method LoadDirectory(servers: seq<Probe>) returns (continents: set<string>, countries: set<string>, na: seq<string>, eu: seq<string>)
    ensures continents == set p | p in servers :: p.continentName
    ensures countries == set p | p in servers :: p.country
    ensures na == Selection(servers, IsNorthAmerican)
    ensures eu == Selection(servers, IsEurasian)
  {
    continents, countries := {}, {};
    na, eu := [], [];
    for i := 0 to |servers|
      invariant continents == Continents(servers[..i])
      invariant countries == Countries(servers[..i])
      invariant na == Selection(servers[..i], IsNorthAmerican)
      invariant eu == Selection(servers[..i], IsEurasian)
    {
      var d := servers[i];
      assert servers[..i + 1] == servers[..i] + [d];
      PlacesSnoc(servers[..i], d);
      SelectionSnoc(servers[..i], d, IsNorthAmerican);
      SelectionSnoc(servers[..i], d, IsEurasian);
      continents := continents + {d.continentName};
      countries := countries + {d.country};
      if IsNorthAmerican(d) {
        na := na + [d.name];
      }
      if IsEurasian(d) {
        eu := eu + [d.name];
      }
    }
    assert servers[..|servers|] == servers;
  }

  /**
   * A name is in a selection exactly when some directory record with that
   * name passes the test.
   */
  lemma SelectionMembers(servers: seq<Probe>, keep: Probe -> bool, n: string)
    ensures n in Selection(servers, keep) <==> exists p :: p in servers && keep(p) && p.name == n
  {
    var kept := Filter(servers, keep);
    if n in Selection(servers, keep) {
      var i :| 0 <= i < |kept| && Names(kept)[i] == n;
      FilterMembers(servers, keep, kept[i]);
    }
    if p :| p in servers && keep(p) && p.name == n {
      FilterMembers(servers, keep, p);
      var i :| 0 <= i < |kept| && kept[i] == p;
      assert Names(kept)[i] == n;
    }
  }

  /** A selection lists its names in the order the directory lists the records. */
  lemma {:induction false} SelectionInDirectoryOrder(servers: seq<Probe>, keep: Probe -> bool)
    ensures IsSubsequence(Selection(servers, keep), Names(servers))
  {
    if servers != [] {
      SelectionInDirectoryOrder(servers[1..], keep);
      var rest := Filter(servers[1..], keep);
      if keep(servers[0]) {
        assert Filter(servers, keep) == [servers[0]] + rest;
        NamesConcat([servers[0]], rest);
        assert Selection(servers, keep) == [servers[0].name] + Names(rest);
        assert ([servers[0].name] + Names(rest))[1..] == Names(rest);
      } else {
        assert Filter(servers, keep) == rest;
      }
      assert Names(servers)[1..] == Names(servers[1..]);
    }
  }
}
