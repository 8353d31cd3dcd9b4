/** The client list of the communication screen (components/Communication.tsx,
    `uniqueClients`): one entry per distinct client name, in order of first
    appearance. The dashboard counts the same list. */
module ClientList {
  import opened Wrappers
  import opened Types

  /** Index of the first project of client `name`, if any (`projects.find`). */
  function FirstIndexOf(ps: seq<Project>, name: string): (r: Option<nat>)
    ensures r.Some? ==> r.value < |ps| && ps[r.value].clientName == name
    ensures r.Some? ==> forall j | 0 <= j < r.value :: ps[j].clientName != name
    ensures r.None? ==> forall j | 0 <= j < |ps| :: ps[j].clientName != name
    decreases |ps|
  {
    if |ps| == 0 then None
    else if ps[0].clientName == name then Some(0)
    else match FirstIndexOf(ps[1..], name)
      case None => None
      case Some(k) => Some(k + 1)
  }

  function ClientNames(ps: seq<Project>): set<string> {
    set p | p in ps :: p.clientName
  }

  /** One project per distinct client name: the first project with that name,
      in order of first appearance (`uniqueClients`). */
  function UniqueClients(ps: seq<Project>): (r: seq<Project>)
    ensures |r| <= |ps|
    decreases |ps|
  {
    if |ps| == 0 then []
    else
      var init := ps[..|ps| - 1];
      var last := ps[|ps| - 1];
      if FirstIndexOf(init, last.clientName).Some? then UniqueClients(init)
      else UniqueClients(init) + [last]
  }

  /** `q` is the first project of its client. */
  predicate FirstOf(ps: seq<Project>, q: Project) {
    FirstIndexOf(ps, q.clientName).Some? && ps[FirstIndexOf(ps, q.clientName).value] == q
  }

  /** Each listed client is the first project with its name, the list follows
      the order of first appearance, and every client name is listed. */
  lemma UniqueClientsAreFirstOccurrences(ps: seq<Project>)
    ensures forall k | 0 <= k < |UniqueClients(ps)| ::
      var r := UniqueClients(ps);
      FirstIndexOf(ps, r[k].clientName).Some? && ps[FirstIndexOf(ps, r[k].clientName).value] == r[k]
    ensures forall i, j | 0 <= i < j < |UniqueClients(ps)| ::
      var r := UniqueClients(ps);
      FirstIndexOf(ps, r[i].clientName).value < FirstIndexOf(ps, r[j].clientName).value
    ensures forall p | p in ps :: exists k | 0 <= k < |UniqueClients(ps)| ::
      UniqueClients(ps)[k].clientName == p.clientName
  {
    UniqueClientsFirst(ps);
    UniqueClientsOrdered(ps);
    UniqueClientsCover(ps);
  }

  /** Each listed client is the first project of its name. */
  lemma {:induction false} UniqueClientsFirst(ps: seq<Project>)
    ensures forall k | 0 <= k < |UniqueClients(ps)| :: FirstOf(ps, UniqueClients(ps)[k])
    decreases |ps|
  {
    if |ps| > 0 {
      var init := ps[..|ps| - 1];
      var last := ps[|ps| - 1];
      assert ps == init + [last];
      UniqueClientsFirst(init);
      FirstIndexPrefix(init, last);
      var prev := UniqueClients(init);
      var r := UniqueClients(ps);
      forall k | 0 <= k < |r| ensures FirstOf(ps, r[k]) {
        if k < |prev| {
          assert r[k] == prev[k];
          assert FirstOf(init, prev[k]);
          var f := FirstIndexOf(init, prev[k].clientName).value;
          assert ps[f] == init[f];
        } else {
          assert r[k] == last;
          assert ps[|init|] == last;
        }
      }
    }
  }

  /** Listed clients appear in order of their first occurrence. */
  lemma {:induction false} UniqueClientsOrdered(ps: seq<Project>)
    ensures forall k | 0 <= k < |UniqueClients(ps)| ::
      FirstIndexOf(ps, UniqueClients(ps)[k].clientName).Some?
    ensures forall i, j | 0 <= i < j < |UniqueClients(ps)| ::
      FirstIndexOf(ps, UniqueClients(ps)[i].clientName).value
        < FirstIndexOf(ps, UniqueClients(ps)[j].clientName).value
    decreases |ps|
  {
    UniqueClientsFirst(ps);
    if |ps| > 0 {
      var init := ps[..|ps| - 1];
      var last := ps[|ps| - 1];
      assert ps == init + [last];
      UniqueClientsOrdered(init);
      FirstIndexPrefix(init, last);
      var prev := UniqueClients(init);
      var r := UniqueClients(ps);
      forall i, j | 0 <= i < j < |r|
        ensures FirstIndexOf(ps, r[i].clientName).value < FirstIndexOf(ps, r[j].clientName).value
      {
        assert r[i] == prev[i];
        assert FirstOf(init, prev[i]);
        if j < |prev| {
          assert r[j] == prev[j];
          assert FirstOf(init, prev[j]);
        } else {
          assert r[j] == last;
        }
      }
    }
  }

  /** Every client name of `ps` is listed. */
  predicate CoversNames(ps: seq<Project>, r: seq<Project>) {
    forall p | p in ps :: exists k | 0 <= k < |r| :: r[k].clientName == p.clientName
  }

  /** Every client name of the projects is listed. */
  lemma {:induction false} UniqueClientsCover(ps: seq<Project>)
    ensures CoversNames(ps, UniqueClients(ps))
    decreases |ps|
  {
    if |ps| > 0 {
      var init := ps[..|ps| - 1];
      var last := ps[|ps| - 1];
      assert ps == init + [last];
      UniqueClientsCover(init);
      CoverStep(init, last);
    }
  }

  /** Appending a project keeps every client name listed. */
  lemma CoverStep(init: seq<Project>, last: Project)
    requires CoversNames(init, UniqueClients(init))
    ensures CoversNames(init + [last], UniqueClients(init + [last]))
  {
    var ps := init + [last];
    assert ps[..|ps| - 1] == init;
    var prev := UniqueClients(init);
    var r := UniqueClients(ps);
    forall p | p in ps
      ensures exists k | 0 <= k < |r| :: r[k].clientName == p.clientName
    {
      if p in init {
        var k :| 0 <= k < |prev| && prev[k].clientName == p.clientName;
        assert r[k] == prev[k];
      } else {
        assert p == last;
        if FirstIndexOf(init, last.clientName).Some? {
          var f := FirstIndexOf(init, last.clientName).value;
          assert init[f] in init;
          var k :| 0 <= k < |prev| && prev[k].clientName == init[f].clientName;
          assert r[k] == prev[k];
        } else {
          assert r[|prev|] == last;
        }
      }
    }
  }


  /** Appending a project keeps the first index of every name already seen,
      and a name not seen before starts at the appended position. */
  lemma {:induction false} FirstIndexPrefix(init: seq<Project>, last: Project)
    ensures forall name | FirstIndexOf(init, name).Some? ::
      FirstIndexOf(init + [last], name) == FirstIndexOf(init, name)
    ensures FirstIndexOf(init, last.clientName).None? ==>
      FirstIndexOf(init + [last], last.clientName) == Some(|init|)
  {
    var ps := init + [last];
    forall name | FirstIndexOf(init, name).Some?
      ensures FirstIndexOf(ps, name) == FirstIndexOf(init, name)
    {
      var k := FirstIndexOf(init, name).value;
      assert ps[k] == init[k];
      assert forall j | 0 <= j < |init| :: ps[j] == init[j];
    }
    if FirstIndexOf(init, last.clientName).None? {
      assert ps[|init|] == last;
      assert forall j | 0 <= j < |init| :: ps[j] == init[j];
    }
  }

  /** No two listed clients share a name. */
  lemma UniqueClientNamesDistinct(ps: seq<Project>)
    ensures forall i, j | 0 <= i < j < |UniqueClients(ps)| ::
      UniqueClients(ps)[i].clientName != UniqueClients(ps)[j].clientName
  {
    UniqueClientsAreFirstOccurrences(ps);
  }
}
