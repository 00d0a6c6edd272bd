/** The artifact registry: two tables that must agree, and the walk over the lineage graph. */
module Artifacts {
  import opened Basics

  type ArtifactId = nat

  datatype ArtifactType = CheckpointArtifact | PromptDataset | PolicyArtifact | Benchmark | EvalReport

  datatype Artifact = Artifact(id: ArtifactId, kind: ArtifactType, ref: string, parents: seq<ArtifactId>)

  type Records = map<ArtifactId, Artifact>

  /** A path from start along parent edges; every node after start exists. */
  ghost predicate Path(r: Records, start: Artifact, p: seq<ArtifactId>) {
    && |p| >= 1
    && p[0] in start.parents
    && (forall i :: 0 <= i < |p| ==> p[i] in r)
    && (forall i :: 0 <= i < |p| - 1 ==> p[i + 1] in r[p[i]].parents)
  }

  /** id is reached from start by one or more parent edges through existing artifacts. */
  ghost predicate IsAncestor(r: Records, start: Artifact, id: ArtifactId) {
    exists p :: Path(r, start, p) && p[|p| - 1] == id
  }

  lemma ParentOfStart(r: Records, start: Artifact, id: ArtifactId)
    requires id in start.parents && id in r
    ensures IsAncestor(r, start, id)
  {
    assert Path(r, start, [id]);
  }

  lemma ParentOfAncestor(r: Records, start: Artifact, x: ArtifactId, id: ArtifactId)
    requires IsAncestor(r, start, x) && x in r && id in r[x].parents && id in r
    ensures IsAncestor(r, start, id)
  {
    var p :| Path(r, start, p) && p[|p| - 1] == x;
    var q := p + [id];
    assert Path(r, start, q) && q[|q| - 1] == id;
  }

  /** All ids that occur as parents. */
  ghost function Mentioned(r: Records): set<ArtifactId> {
    set c, p | c in r && p in r[c].parents :: p
  }

  class ArtifactRegistry {
    var artifacts: Records
    var edges: set<(ArtifactId, ArtifactId)>   // (child, parent)

    /** The parent table holds exactly the stored parent lists. */
    ghost predicate Agree()
      reads this
    {
      && (forall id :: id in artifacts ==> artifacts[id].id == id)
      && (forall c, p :: (c, p) in edges <==> c in artifacts && p in artifacts[c].parents)
    }

    constructor ()
      ensures artifacts == map[] && edges == {} && Agree()
    {
      artifacts := map[];
      edges := {};
    }

    /** The id is new; parents may name artifacts that do not exist, and may repeat. */
    method Register(id: ArtifactId, kind: ArtifactType, ref: string, parents: seq<ArtifactId>) returns (art: Artifact)
      requires Agree() && id !in artifacts
      modifies this
      ensures Agree()
      ensures art == Artifact(id, kind, ref, parents)
      ensures artifacts == old(artifacts)[id := art]
    {
      art := Artifact(id, kind, ref, parents);
      artifacts := artifacts[id := art];
      ghost var before := edges;
      for i := 0 to |parents|
        invariant artifacts == old(artifacts)[id := art]
        invariant forall c, p :: (c, p) in edges <==> (c, p) in before || (c == id && p in parents[..i])
      {
        edges := edges + {(id, parents[i])};
      }
      assert parents[..|parents|] == parents;
    }

    /** Exactly the artifacts whose parent list names the id, each once. */
    method Children(id: ArtifactId) returns (children: seq<Artifact>)
      requires Agree()
      ensures Stored(artifacts, children)
      ensures forall x :: x in artifacts && id in artifacts[x].parents <==> Listed(children, x)
    {
      var rows := set e | e in edges && e.1 == id;
      ghost var all := rows;
      children := [];
      while rows != {}
        invariant rows <= all
        invariant forall i :: 0 <= i < |children| ==>
                    && children[i].id in artifacts && children[i] == artifacts[children[i].id]
                    && (children[i].id, id) in all - rows
        invariant forall x :: (x, id) in all - rows ==> exists i :: 0 <= i < |children| && children[i].id == x
        invariant forall i, j :: 0 <= i < j < |children| ==> children[i].id != children[j].id
        decreases rows
      {
        var row :| row in rows;
        ghost var before := children;
        children := children + [artifacts[row.0]];
        rows := rows - {row};
        forall x | (x, id) in all - rows ensures exists i :: 0 <= i < |children| && children[i].id == x {
          if x == row.0 {
            assert children[|before|].id == x;
          } else {
            assert (x, id) in all - (rows + {row});
            var i :| 0 <= i < |before| && before[i].id == x;
            assert children[i].id == x;
          }
        }
      }
      forall x | x in artifacts && id in artifacts[x].parents
        ensures Listed(children, x)
      {
        assert (x, id) in all;
      }
    }

    /**
     All transitive parents of an existing artifact, each once; a missing artifact is None.
     The walk ends on any graph, with cycles and dangling parents.
     */
    method Ancestors(id: ArtifactId) returns (r: Option<seq<Artifact>>)
      requires Agree()
      ensures r == None <==> id !in artifacts
      ensures r.Some? ==>
                && Stored(artifacts, r.value)
                && forall x :: IsAncestor(artifacts, artifacts[id], x) <==> Listed(r.value, x)
    {
      if id !in artifacts {
        return None;
      }
      ghost var start := artifacts[id];
      var seen: set<ArtifactId> := {};
      var out: seq<Artifact> := [];
      var stack := artifacts[id].parents;
      WalkStarts(artifacts, id);
      assert forall x :: x in artifacts ==> artifacts[x].id == x;
      hide Frontier, Collected, IsAncestor, Mentioned, Agree, Stored, Listed;
      while stack != []
        invariant Frontier(artifacts, start, seen, stack)
        invariant Collected(artifacts, start, seen, out)
        decreases Mentioned(artifacts) - seen, |stack|
      {
        var pid := stack[|stack| - 1];
        var rest := stack[..|stack| - 1];
        assert stack == rest + [pid];
        if pid in seen {
          WalkSkips(artifacts, start, seen, rest, pid);
          stack := rest;
        } else if pid !in artifacts {
          WalkDangles(artifacts, start, seen, rest, pid, out);
          seen := seen + {pid};
          stack := rest;
        } else {
          WalkVisits(artifacts, start, seen, rest, pid, out);
          seen := seen + {pid};
          out := out + [artifacts[pid]];
          stack := rest + artifacts[pid].parents;
        }
      }
      WalkEnds(artifacts, start, seen, out);
      return Some(out);
    }
  }

  /** A result list: each item a stored artifact, none twice. */
  predicate Stored(r: Records, out: seq<Artifact>) {
    && (forall i :: 0 <= i < |out| ==> out[i].id in r && out[i] == r[out[i].id])
    && (forall i, j :: 0 <= i < j < |out| ==> out[i].id != out[j].id)
  }

  predicate Listed(out: seq<Artifact>, id: ArtifactId) {
    exists i :: 0 <= i < |out| && out[i].id == id
  }

  /** Parents of what has been seen are seen or on the stack; the stack holds ancestors only. */
  ghost predicate Frontier(r: Records, start: Artifact, seen: set<ArtifactId>, stack: seq<ArtifactId>) {
    && seen <= Mentioned(r)
    && (forall x :: x in stack ==> x in Mentioned(r))
    && (forall x :: x in start.parents ==> x in seen || x in stack)
    && (forall x, y :: x in seen && x in r && y in r[x].parents ==> y in seen || y in stack)
    && (forall x :: x in stack && x in r ==> IsAncestor(r, start, x))
  }

  lemma WalkStarts(r: Records, id: ArtifactId)
    requires id in r
    ensures Frontier(r, r[id], {}, r[id].parents) && Collected(r, r[id], {}, [])
  {
    forall x | x in r[id].parents && x in r ensures IsAncestor(r, r[id], x) {
      ParentOfStart(r, r[id], x);
    }
  }

  lemma WalkSkips(r: Records, start: Artifact, seen: set<ArtifactId>, rest: seq<ArtifactId>, pid: ArtifactId)
    requires Frontier(r, start, seen, rest + [pid]) && pid in seen
    ensures Frontier(r, start, seen, rest)
  {
    assert forall x :: x in rest + [pid] <==> x in rest || x == pid;
  }

  lemma WalkDangles(r: Records, start: Artifact, seen: set<ArtifactId>, rest: seq<ArtifactId>, pid: ArtifactId,
                    out: seq<Artifact>)
    requires Frontier(r, start, seen, rest + [pid]) && pid !in seen && pid !in r
    requires Collected(r, start, seen, out)
    ensures Frontier(r, start, seen + {pid}, rest) && Collected(r, start, seen + {pid}, out)
    ensures Mentioned(r) - (seen + {pid}) < Mentioned(r) - seen
  {
    assert forall x :: x in rest + [pid] <==> x in rest || x == pid;
    assert pid in Mentioned(r) - seen;
  }

  lemma WalkVisits(r: Records, start: Artifact, seen: set<ArtifactId>, rest: seq<ArtifactId>, pid: ArtifactId,
                   out: seq<Artifact>)
    requires Frontier(r, start, seen, rest + [pid]) && pid !in seen && pid in r && r[pid].id == pid
    requires Collected(r, start, seen, out)
    ensures Frontier(r, start, seen + {pid}, rest + r[pid].parents)
    ensures Collected(r, start, seen + {pid}, out + [r[pid]])
    ensures Mentioned(r) - (seen + {pid}) < Mentioned(r) - seen
  {
    hide Collected, IsAncestor;
    assert forall x :: x in rest + [pid] <==> x in rest || x == pid;
    assert forall x :: x in rest + r[pid].parents <==> x in rest || x in r[pid].parents;
    assert pid in Mentioned(r) - seen;
    CollectOne(r, start, seen, out, pid);
    forall x | x in r[pid].parents && x in r ensures IsAncestor(r, start, x) {
      ParentOfAncestor(r, start, pid, x);
    }
  }

  /** Once the stack is empty, every ancestor has been seen. */
  lemma {:induction false} PathWasSeen(r: Records, start: Artifact, seen: set<ArtifactId>, p: seq<ArtifactId>)
    requires Frontier(r, start, seen, [])
    requires Path(r, start, p)
    ensures p[|p| - 1] in seen && p[|p| - 1] in r
  {
    if |p| > 1 {
      var n := |p| - 1;
      PathWasSeen(r, start, seen, p[..n]);
      assert p[n - 1 + 1] in r[p[n - 1]].parents;
    }
  }

  lemma WalkEnds(r: Records, start: Artifact, seen: set<ArtifactId>, out: seq<Artifact>)
    requires Frontier(r, start, seen, []) && Collected(r, start, seen, out)
    ensures Stored(r, out)
    ensures forall x :: IsAncestor(r, start, x) <==> Listed(out, x)
  {
    forall x | IsAncestor(r, start, x) ensures x in seen && x in r {
      var p :| Path(r, start, p) && p[|p| - 1] == x;
      hide Frontier, Collected, Path;
      PathWasSeen(r, start, seen, p);
    }
    hide Frontier, IsAncestor;
  }

  /** out lists the existing artifacts among the seen ids, each once, and all are ancestors. */
  ghost predicate Collected(r: Records, start: Artifact, seen: set<ArtifactId>, out: seq<Artifact>) {
    && (forall i :: 0 <= i < |out| ==>
          out[i].id in r && out[i] == r[out[i].id] && out[i].id in seen && IsAncestor(r, start, out[i].id))
    && (forall x :: x in seen && x in r ==> exists i :: 0 <= i < |out| && out[i].id == x)
    && (forall i, j :: 0 <= i < j < |out| ==> out[i].id != out[j].id)
  }

  lemma CollectOne(r: Records, start: Artifact, seen: set<ArtifactId>, out: seq<Artifact>, id: ArtifactId)
    requires Collected(r, start, seen, out)
    requires id in r && r[id].id == id && id !in seen && IsAncestor(r, start, id)
    ensures Collected(r, start, seen + {id}, out + [r[id]])
  {
    var out' := out + [r[id]];
    forall x | x in seen + {id} && x in r ensures exists i :: 0 <= i < |out'| && out'[i].id == x {
      if x == id {
        assert out'[|out|].id == x;
      } else {
        var i :| 0 <= i < |out| && out[i].id == x;
        assert out'[i].id == x;
      }
    }
  }
}
