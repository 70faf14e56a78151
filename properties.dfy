/** What the traversal guarantees: the depth and breadth guards, the
    self-reference short-circuit, error containment, last-write-wins on
    duplicate keys, the shape of the result tree and a bound on the number of
    describe requests. */
module Properties {
  import opened DescribeApi
  import opened Config
  import opened Traversal

  // ---------------------------------------------------------------------
  // Guards and failures
  // ---------------------------------------------------------------------

  /** Past the depth limit a call returns the empty map and describes nothing. */
  lemma DepthGuard(cfg: SalesforceConfig, server: Server, name: string, depth: int)
    requires depth > cfg.depthLevel
    ensures Query(cfg, server, name, depth) == Visit(map[], [])
  {
  }

  /** A describe that throws, answers with a non-2xx status or sends an
      unparsable body gives the empty map after that one request. */
  lemma FailedDescribeIsEmpty(cfg: SalesforceConfig, server: Server, name: string, depth: int)
    requires depth <= cfg.depthLevel
    requires server(name).TransportFault? || !IsSuccessStatusCode(server(name).status) || server(name).body.Unparsable?
    ensures Query(cfg, server, name, depth) == Visit(map[], [name])
  {
  }

  /** A describe result without a `childRelationships` array, or with an
      empty one, gives the empty map. */
  lemma NoRelationshipsIsEmpty(cfg: SalesforceConfig, server: Server, name: string, depth: int)
    requires depth <= cfg.depthLevel
    requires server(name).HttpResponse? && IsSuccessStatusCode(server(name).status)
    requires server(name).body.DescribeResult? && EntriesOf(server(name).body) == []
    ensures Query(cfg, server, name, depth) == Visit(map[], [name])
  {
  }

  /** Once the loop has stopped or aborted, later elements change nothing. */
  lemma {:induction false} Absorbing(cfg: SalesforceConfig, server: Server, name: string, depth: int, s: seq<Entry>, t: seq<Entry>)
    requires depth <= cfg.depthLevel
    requires !Run(cfg, server, name, depth, s).status.Running?
    ensures Run(cfg, server, name, depth, s + t) == Run(cfg, server, name, depth, s)
    decreases |t|
  {
    if t == [] {
      assert s + t == s;
    } else {
      var p := t[..|t| - 1];
      assert (s + t)[..|s + t| - 1] == s + p;
      Absorbing(cfg, server, name, depth, s, p);
    }
  }

  /** The loop's state after one more element. */
  lemma RunSnoc(cfg: SalesforceConfig, server: Server, name: string, depth: int, s: seq<Entry>, e: Entry)
    requires depth <= cfg.depthLevel
    ensures Run(cfg, server, name, depth, s + [e]) == Step(cfg, server, name, depth, Run(cfg, server, name, depth, s), e)
  {
    assert (s + [e])[..|s|] == s;
  }

  lemma AppendAssoc<T>(a: seq<T>, b: seq<T>, c: seq<T>)
    ensures a + (b + c) == (a + b) + c
  {
  }

  /** An element that throws when read, once the loop reaches it (no earlier
      element threw and the breadth cap was not yet reached), empties the
      whole level: the partial map built before it is discarded, and the
      failure is not seen by the caller, which receives an empty map. */
  lemma ThrownEntryEmptiesLevel(cfg: SalesforceConfig, server: Server, name: string, depth: int, j: nat)
    requires depth <= cfg.depthLevel
    requires server(name).HttpResponse? && IsSuccessStatusCode(server(name).status)
    requires server(name).body.DescribeResult?
    requires j < |EntriesOf(server(name).body)| && ReadEntry(EntriesOf(server(name).body)[j]).Thrown?
    requires var reached := Run(cfg, server, name, depth, EntriesOf(server(name).body)[..j]);
      reached.status.Running? && !CapReached(cfg, reached.processed)
    ensures Query(cfg, server, name, depth).relationships == map[]
  {
    var entries := EntriesOf(server(name).body);
    assert entries[..j + 1][..j] == entries[..j];
    Absorbing(cfg, server, name, depth, entries[..j + 1], entries[j + 1..]);
    assert entries[..j + 1] + entries[j + 1..] == entries;
  }

  // ---------------------------------------------------------------------
  // Elements lacking `childSObject` or `field`
  // ---------------------------------------------------------------------

  /** A loop state that has stopped only because the breadth cap was reached. */
  ghost predicate Settled(cfg: SalesforceConfig, st: Loop)
  {
    st.status.Stopped? ==> CapReached(cfg, st.processed)
  }

  /** Two loop states that end in the same call result. */
  ghost predicate Alike(st1: Loop, st2: Loop)
  {
    st1.acc == st2.acc && st1.processed == st2.processed && st1.requests == st2.requests &&
    st1.status.Aborted? == st2.status.Aborted?
  }

  lemma {:induction false} RunSettled(cfg: SalesforceConfig, server: Server, name: string, depth: int, entries: seq<Entry>)
    requires depth <= cfg.depthLevel
    ensures Settled(cfg, Run(cfg, server, name, depth, entries))
    decreases |entries|
  {
    if entries != [] {
      RunSettled(cfg, server, name, depth, entries[..|entries| - 1]);
    }
  }

  lemma StepAlike(cfg: SalesforceConfig, server: Server, name: string, depth: int, st1: Loop, st2: Loop, e: Entry)
    requires depth <= cfg.depthLevel
    requires Settled(cfg, st1) && Settled(cfg, st2) && Alike(st1, st2)
    ensures Alike(Step(cfg, server, name, depth, st1, e), Step(cfg, server, name, depth, st2, e))
  {
    if st1.status.Running? && st2.status.Running? {
      assert st1 == st2;
    }
  }

  /** The array without the elements the loop skips (objects lacking
      `childSObject` or `field`), in array order. */
  function Kept(entries: seq<Entry>): (r: seq<Entry>)
    ensures |r| <= |entries|
    ensures forall e | e in r :: e in entries && !ReadEntry(e).Skipped?
    ensures forall e | e in entries && !ReadEntry(e).Skipped? :: e in r
  {
    if entries == [] then []
    else
      var last := entries[|entries| - 1];
      Kept(entries[..|entries| - 1]) + (if ReadEntry(last).Skipped? then [] else [last])
  }

  /** `Kept` keeps array order: it distributes over concatenation. */
  lemma {:induction false} KeptAppend(a: seq<Entry>, b: seq<Entry>)
    ensures Kept(a + b) == Kept(a) + Kept(b)
    decreases |b|
  {
    if b == [] {
      assert a + b == a;
    } else {
      var p, last := b[..|b| - 1], b[|b| - 1];
      assert (a + b)[..|a + b| - 1] == a + p;
      KeptAppend(a, p);
    }
  }

  lemma {:induction false} RunKept(cfg: SalesforceConfig, server: Server, name: string, depth: int, entries: seq<Entry>)
    requires depth <= cfg.depthLevel
    ensures Alike(Run(cfg, server, name, depth, entries), Run(cfg, server, name, depth, Kept(entries)))
    ensures Settled(cfg, Run(cfg, server, name, depth, Kept(entries)))
    decreases |entries|
  {
    if entries != [] {
      var p, last := entries[..|entries| - 1], entries[|entries| - 1];
      RunKept(cfg, server, name, depth, p);
      RunSettled(cfg, server, name, depth, p);
      var k := Kept(p);
      if ReadEntry(last).Skipped? {
        assert Kept(entries) == k;
      } else {
        assert Kept(entries) == k + [last];
        assert (k + [last])[..|k + [last]| - 1] == k;
        StepAlike(cfg, server, name, depth, Run(cfg, server, name, depth, p), Run(cfg, server, name, depth, k), last);
      }
    }
  }

  /** Removing every element that lacks `childSObject` or `field` changes
      neither the call's map nor the requests it makes: such elements add no
      key and do not count toward the breadth cap. */
  lemma SkippedEntriesChangeNothing(cfg: SalesforceConfig, server: Server, name: string, depth: int, entries: seq<Entry>)
    requires depth <= cfg.depthLevel
    ensures Finish(name, Run(cfg, server, name, depth, entries)) == Finish(name, Run(cfg, server, name, depth, Kept(entries)))
  {
    RunKept(cfg, server, name, depth, entries);
  }

  // ---------------------------------------------------------------------
  // Breadth cap
  // ---------------------------------------------------------------------

  /** The accepted count never passes the cap, and each key other than the
      object's own name was put there by an accepted element. */
  ghost predicate WithinCap(cfg: SalesforceConfig, name: string, st: Loop)
  {
    (cfg.maxChildRelationships > 0 ==> st.processed <= cfg.maxChildRelationships) &&
    |st.acc.Keys - {name}| <= st.processed
  }

  lemma InsertKeyCard(acc: map<string, Node>, c: string, v: Node, name: string)
    ensures |acc[c := v].Keys - {name}| <= |acc.Keys - {name}| + (if c == name then 0 else 1)
  {
    var before, after := acc.Keys - {name}, acc[c := v].Keys - {name};
    if c == name || c in acc {
      assert after == before;
    } else {
      assert after == before + {c};
    }
  }

  lemma StepWithinCap(cfg: SalesforceConfig, server: Server, name: string, depth: int, st: Loop, e: Entry)
    requires depth <= cfg.depthLevel
    requires WithinCap(cfg, name, st)
    ensures WithinCap(cfg, name, Step(cfg, server, name, depth, st, e))
  {
    var next := Step(cfg, server, name, depth, st, e);
    if st.status.Running? && !CapReached(cfg, st.processed) && ReadEntry(e).Read? {
      var rel := ReadEntry(e).rel;
      var node := Node(rel.fieldName, rel.associateEntityType, rel.associateParentEntity, None);
      if rel.childObjectName == name {
        InsertKeyCard(st.acc, rel.childObjectName, node, name);
      } else {
        var nested := Query(cfg, server, rel.childObjectName, depth + 1);
        InsertKeyCard(st.acc, rel.childObjectName, node.(childRelationships := Nest(nested.relationships)), name);
      }
    }
  }

  lemma {:induction false} RunWithinCap(cfg: SalesforceConfig, server: Server, name: string, depth: int, entries: seq<Entry>)
    requires depth <= cfg.depthLevel
    ensures WithinCap(cfg, name, Run(cfg, server, name, depth, entries))
    decreases |entries|
  {
    if entries != [] {
      var p := entries[..|entries| - 1];
      RunWithinCap(cfg, server, name, depth, p);
      StepWithinCap(cfg, server, name, depth, Run(cfg, server, name, depth, p), entries[|entries| - 1]);
    }
  }

  /** With a cap K > 0 a call's map holds at most K keys besides the object's own name. */
  lemma BreadthCap(cfg: SalesforceConfig, server: Server, name: string, depth: int)
    requires cfg.maxChildRelationships > 0
    ensures |Query(cfg, server, name, depth).relationships.Keys - {name}| <= cfg.maxChildRelationships
  {
    if depth <= cfg.depthLevel && server(name).HttpResponse? && server(name).body.DescribeResult? {
      RunWithinCap(cfg, server, name, depth, EntriesOf(server(name).body));
    }
  }

  /** With no cap (K <= 0, "process all") the loop never ends early on the
      breadth guard; only an exception stops it. */
  lemma {:induction false} NoCapNeverStops(cfg: SalesforceConfig, server: Server, name: string, depth: int, entries: seq<Entry>)
    requires depth <= cfg.depthLevel && cfg.maxChildRelationships <= 0
    ensures !Run(cfg, server, name, depth, entries).status.Stopped?
  {
    RunSettled(cfg, server, name, depth, entries);
  }

  /** Once K elements are accepted every later element is dropped,
      self-references included: the map and the requests stay as they are. */
  lemma CapDropsLaterEntries(cfg: SalesforceConfig, server: Server, name: string, depth: int, s: seq<Entry>, t: seq<Entry>)
    requires depth <= cfg.depthLevel
    requires Run(cfg, server, name, depth, s).status.Running?
    requires cfg.maxChildRelationships > 0 && Run(cfg, server, name, depth, s).processed == cfg.maxChildRelationships
    ensures Finish(name, Run(cfg, server, name, depth, s + t)) == Finish(name, Run(cfg, server, name, depth, s))
  {
    if t == [] {
      assert s + t == s;
    } else {
      var s1 := s + [t[0]];
      assert s1[..|s1| - 1] == s;
      Absorbing(cfg, server, name, depth, s1, t[1..]);
      assert s1 + t[1..] == s + t;
    }
  }

  // ---------------------------------------------------------------------
  // Duplicate keys
  // ---------------------------------------------------------------------

  /** An accepted element puts a node carrying its own attributes under its
      child object name, replacing any earlier node there, and leaves every
      other key as it was; the node has a nested map exactly when the child is
      not the object itself and its own call returned a non-empty map. A
      failing child never stops its parent's loop. */
  lemma EntryOverwrites(cfg: SalesforceConfig, server: Server, name: string, depth: int, s: seq<Entry>, e: Entry)
    requires depth <= cfg.depthLevel
    requires Run(cfg, server, name, depth, s).status.Running? && !CapReached(cfg, Run(cfg, server, name, depth, s).processed)
    requires ReadEntry(e).Read?
    ensures var rel, before, after := ReadEntry(e).rel, Run(cfg, server, name, depth, s), Run(cfg, server, name, depth, s + [e]);
      && after.status.Running?
      && rel.childObjectName in after.acc
      && after.acc == before.acc[rel.childObjectName := after.acc[rel.childObjectName]]
      && after.acc[rel.childObjectName].field == rel.fieldName
      && after.acc[rel.childObjectName].associateEntityType == rel.associateEntityType
      && after.acc[rel.childObjectName].associateParentEntity == rel.associateParentEntity
      && (after.acc[rel.childObjectName].childRelationships.Some? <==>
            rel.childObjectName != name && Query(cfg, server, rel.childObjectName, depth + 1).relationships != map[])
      && (after.acc[rel.childObjectName].childRelationships.Some? ==>
            after.acc[rel.childObjectName].childRelationships.value == Query(cfg, server, rel.childObjectName, depth + 1).relationships)
      && after.processed == before.processed + (if rel.childObjectName == name then 0 else 1)
      && after.requests == before.requests +
           (if rel.childObjectName == name then [] else Query(cfg, server, rel.childObjectName, depth + 1).requests)
  {
    assert (s + [e])[..|s + [e]| - 1] == s;
  }

  /** A child whose own describe fails (an exception, a non-2xx status such
      as 404, or an unparsable body) is still recorded in its parent's map,
      from the parent's own describe data, without a nested map. */
  lemma FailedChildStillRecorded(cfg: SalesforceConfig, server: Server, name: string, depth: int, s: seq<Entry>, e: Entry)
    requires depth < cfg.depthLevel
    requires Run(cfg, server, name, depth, s).status.Running? && !CapReached(cfg, Run(cfg, server, name, depth, s).processed)
    requires ReadEntry(e).Read? && ReadEntry(e).rel.childObjectName != name
    requires var answer := server(ReadEntry(e).rel.childObjectName);
      answer.TransportFault? || !IsSuccessStatusCode(answer.status) || answer.body.Unparsable?
    ensures var c := ReadEntry(e).rel.childObjectName;
      && c in Run(cfg, server, name, depth, s + [e]).acc
      && Run(cfg, server, name, depth, s + [e]).acc[c].childRelationships.None?
      && Run(cfg, server, name, depth, s + [e]).requests == Run(cfg, server, name, depth, s).requests + [c]
  {
    EntryOverwrites(cfg, server, name, depth, s, e);
    FailedDescribeIsEmpty(cfg, server, ReadEntry(e).rel.childObjectName, depth + 1);
  }

  /** No element names `k`: the node under `k` survives unchanged. */
  ghost predicate NeverNames(t: seq<Entry>, k: string)
  {
    forall j | 0 <= j < |t| :: !(ReadEntry(t[j]).Read? && ReadEntry(t[j]).rel.childObjectName == k)
  }

  lemma {:induction false} KeyUntouched(cfg: SalesforceConfig, server: Server, name: string, depth: int, s: seq<Entry>, t: seq<Entry>, k: string)
    requires depth <= cfg.depthLevel
    requires k in Run(cfg, server, name, depth, s).acc
    requires NeverNames(t, k)
    ensures k in Run(cfg, server, name, depth, s + t).acc
    ensures Run(cfg, server, name, depth, s + t).acc[k] == Run(cfg, server, name, depth, s).acc[k]
    decreases |t|
  {
    if t == [] {
      assert s + t == s;
    } else {
      var p := t[..|t| - 1];
      assert (s + t)[..|s + t| - 1] == s + p;
      assert NeverNames(p, k) by {
        forall j | 0 <= j < |p| ensures !(ReadEntry(p[j]).Read? && ReadEntry(p[j]).rel.childObjectName == k) {
          assert p[j] == t[j];
        }
      }
      KeyUntouched(cfg, server, name, depth, s, p, k);
    }
  }

  /** Last write wins: after an accepted element for child `c`, and no later
      element naming `c`, the node under `c` carries that element's attributes. */
  lemma LastWriteWins(cfg: SalesforceConfig, server: Server, name: string, depth: int, s: seq<Entry>, e: Entry, t: seq<Entry>)
    requires depth <= cfg.depthLevel
    requires Run(cfg, server, name, depth, s).status.Running? && !CapReached(cfg, Run(cfg, server, name, depth, s).processed)
    requires ReadEntry(e).Read? && NeverNames(t, ReadEntry(e).rel.childObjectName)
    ensures var rel, final := ReadEntry(e).rel, Run(cfg, server, name, depth, s + [e] + t);
      && rel.childObjectName in final.acc
      && final.acc[rel.childObjectName].field == rel.fieldName
      && final.acc[rel.childObjectName].associateEntityType == rel.associateEntityType
      && final.acc[rel.childObjectName].associateParentEntity == rel.associateParentEntity
  {
    EntryOverwrites(cfg, server, name, depth, s, e);
    KeyUntouched(cfg, server, name, depth, s + [e], t, ReadEntry(e).rel.childObjectName);
  }

  // ---------------------------------------------------------------------
  // Shape of the result tree
  // ---------------------------------------------------------------------

  /** A map produced for object `parent` with `h` levels of budget: empty
      when there is no budget; a self-referencing key has no nested map; a
      nested map is never empty, and is itself well formed for its own object
      with one level less. */
  ghost predicate WellFormed(parent: string, m: map<string, Node>, h: nat)
    decreases h
  {
    && (h == 0 ==> m == map[])
    && forall k | k in m ::
         && (k == parent ==> m[k].childRelationships.None?)
         && (m[k].childRelationships.Some? ==>
               && h > 0
               && m[k].childRelationships.value != map[]
               && WellFormed(k, m[k].childRelationships.value, h - 1))
  }

  lemma {:induction false} QueryWellFormed(cfg: SalesforceConfig, server: Server, name: string, depth: int)
    ensures WellFormed(name, Query(cfg, server, name, depth).relationships, Levels(cfg, depth))
    decreases Levels(cfg, depth), 2, 0
  {
    if depth <= cfg.depthLevel && server(name).HttpResponse? && IsSuccessStatusCode(server(name).status)
       && server(name).body.DescribeResult? {
      RunWellFormed(cfg, server, name, depth, EntriesOf(server(name).body));
    }
  }

  lemma {:induction false} RunWellFormed(cfg: SalesforceConfig, server: Server, name: string, depth: int, entries: seq<Entry>)
    requires depth <= cfg.depthLevel
    ensures WellFormed(name, Run(cfg, server, name, depth, entries).acc, Levels(cfg, depth))
    decreases Levels(cfg, depth), 1, |entries|
  {
    if entries != [] {
      var p := entries[..|entries| - 1];
      RunWellFormed(cfg, server, name, depth, p);
      StepWellFormed(cfg, server, name, depth, Run(cfg, server, name, depth, p), entries[|entries| - 1]);
    }
  }

  lemma {:induction false} StepWellFormed(cfg: SalesforceConfig, server: Server, name: string, depth: int, st: Loop, e: Entry)
    requires depth <= cfg.depthLevel
    requires WellFormed(name, st.acc, Levels(cfg, depth))
    ensures WellFormed(name, Step(cfg, server, name, depth, st, e).acc, Levels(cfg, depth))
    decreases Levels(cfg, depth), 0, 0
  {
    if st.status.Running? && !CapReached(cfg, st.processed) && ReadEntry(e).Read? {
      var rel := ReadEntry(e).rel;
      if rel.childObjectName != name {
        QueryWellFormed(cfg, server, rel.childObjectName, depth + 1);
      }
    }
  }

  /** The root wrapper names the initial object and holds a well-formed map
      spanning at most `DepthLevel` levels; a depth level below 1 gives an
      empty map. */
  lemma ResultTreeShape(cfg: SalesforceConfig, server: Server)
    ensures Extract(cfg, server).sObject == cfg.initialSObject
    ensures WellFormed(cfg.initialSObject, Extract(cfg, server).childRelationships, Levels(cfg, 1))
    ensures cfg.depthLevel < 1 ==> Extract(cfg, server).childRelationships == map[]
  {
    QueryWellFormed(cfg, server, cfg.initialSObject, 1);
  }

  /** A call at the last allowed depth yields only nodes without nested maps;
      with `DepthLevel` = 1 the whole output is one level deep. */
  lemma DeepestLevelIsFlat(cfg: SalesforceConfig, server: Server, name: string)
    ensures forall k | k in Query(cfg, server, name, cfg.depthLevel).relationships ::
              Query(cfg, server, name, cfg.depthLevel).relationships[k].childRelationships.None?
  {
    QueryWellFormed(cfg, server, name, cfg.depthLevel);
  }

  // ---------------------------------------------------------------------
  // Number of describe requests
  // ---------------------------------------------------------------------

  /** The most requests a call with `h` levels of budget can make when each
      object accepts at most `k` children. */
  function Calls(k: nat, h: nat): nat
  {
    if h == 0 then 0 else 1 + k * Calls(k, h - 1)
  }

  lemma MulMono(a: nat, b: nat, c: nat)
    requires a <= b
    ensures a * c <= b * c
  {
  }

  lemma {:induction false} QueryRequestBound(cfg: SalesforceConfig, server: Server, name: string, depth: int)
    requires cfg.maxChildRelationships > 0
    ensures |Query(cfg, server, name, depth).requests| <= Calls(cfg.maxChildRelationships, Levels(cfg, depth))
    decreases Levels(cfg, depth), 2, 0
  {
    if depth <= cfg.depthLevel && server(name).HttpResponse? && IsSuccessStatusCode(server(name).status)
       && server(name).body.DescribeResult? {
      var st := Run(cfg, server, name, depth, EntriesOf(server(name).body));
      RunRequestBound(cfg, server, name, depth, EntriesOf(server(name).body));
      MulMono(st.processed, cfg.maxChildRelationships, Calls(cfg.maxChildRelationships, Levels(cfg, depth + 1)));
    }
  }

  lemma {:induction false} RunRequestBound(cfg: SalesforceConfig, server: Server, name: string, depth: int, entries: seq<Entry>)
    requires cfg.maxChildRelationships > 0 && depth <= cfg.depthLevel
    ensures var st := Run(cfg, server, name, depth, entries);
      st.processed <= cfg.maxChildRelationships &&
      |st.requests| <= st.processed * Calls(cfg.maxChildRelationships, Levels(cfg, depth + 1))
    decreases Levels(cfg, depth), 1, |entries|
  {
    if entries != [] {
      var p := entries[..|entries| - 1];
      RunRequestBound(cfg, server, name, depth, p);
      var st := Run(cfg, server, name, depth, p);
      var e := entries[|entries| - 1];
      if st.status.Running? && !CapReached(cfg, st.processed) && ReadEntry(e).Read? && ReadEntry(e).rel.childObjectName != name {
        var c := Calls(cfg.maxChildRelationships, Levels(cfg, depth + 1));
        QueryRequestBound(cfg, server, ReadEntry(e).rel.childObjectName, depth + 1);
        assert (st.processed + 1) * c == st.processed * c + c;
      }
    }
  }
}
