/**
 Access stamps refine a recency list. The code stamps an entry with a counter on
 every use and evicts the smallest stamp; the textbook definition moves a used
 partition to the front of a list and evicts the tail.
 */
module WriterLru {
  import opened Rows
  import opened Datasets
  import opened DatasetWriter

  /** The open partitions, most recently used first. */
  ghost predicate IsRecency(active: map<string, Entry>, list: seq<string>) {
    && |list| == |active|
    && (forall i :: 0 <= i < |list| ==> list[i] in active)
    && (forall i, j :: 0 <= i < j < |list| ==> active[list[i]].access > active[list[j]].access)
  }

  function Without(list: seq<string>, path: string): (r: seq<string>)
    ensures path in list ==> |r| == |list| - 1
    ensures path !in list ==> r == list
  {
    if list == [] then []
    else if list[0] == path then list[1..]
    else [list[0]] + Without(list[1..], path)
  }

  /** Using a partition: an open one moves to the front; a new one is put there, after evicting the tail if full. */
  function Use(list: seq<string>, path: string, max: nat): seq<string>
    requires max > 0
  {
    if path in list then [path] + Without(list, path)
    else if |list| < max then [path] + list
    else [path] + list[..|list| - 1]
  }

  lemma {:induction false} RecencyCovers(active: map<string, Entry>, list: seq<string>, path: string)
    requires IsRecency(active, list)
    ensures path in list <==> path in active
    decreases |list|
  {
    if list != [] {
      var rest := active - {list[0]};
      TailRecency(active, list);
      RecencyCovers(rest, list[1..], path);
      assert path in list <==> path == list[0] || path in list[1..];
    }
  }

  lemma TailRecency(active: map<string, Entry>, list: seq<string>)
    requires IsRecency(active, list) && list != []
    ensures IsRecency(active - {list[0]}, list[1..])
  {
    var rest, tail := active - {list[0]}, list[1..];
    forall i | 0 <= i < |tail| ensures tail[i] in rest && rest[tail[i]] == active[list[i + 1]] {
      assert active[list[0]].access > active[list[i + 1]].access;
    }
  }

  /** The entry with the smallest stamp is the tail of the recency list. */
  lemma OldestIsTail(s: State, list: seq<string>)
    requires Stamped(s) && s.active != map[] && IsRecency(s.active, list)
    ensures |list| > 0 && LeastRecent(s) == list[|list| - 1]
  {
    var path := LeastRecent(s);
    RecencyCovers(s.active, list, path);
    var i :| 0 <= i < |list| && list[i] == path;
    if i < |list| - 1 {
      assert s.active[list[i]].access > s.active[list[|list| - 1]].access;
    }
  }

  /** Removing any open partition keeps the order of the others. */
  lemma {:induction false} RemoveRecency(active: map<string, Entry>, list: seq<string>, path: string)
    requires IsRecency(active, list) && path in active
    ensures IsRecency(active - {path}, Without(list, path))
    decreases |list|
  {
    RecencyCovers(active, list, path);
    TailRecency(active, list);
    if list[0] != path {
      var rest := active - {list[0]};
      RemoveRecency(rest, list[1..], path);
      var tail := Without(list[1..], path);
      assert active - {path} - {list[0]} == rest - {path};
      WithoutKeeps(list[1..], path);
      forall i | 0 <= i < |tail|
        ensures tail[i] in active - {path} && active[list[0]].access > (active - {path})[tail[i]].access
      {
        assert tail[i] in rest - {path} && tail[i] in tail && tail[i] in list[1..];
        var j :| 0 <= j < |list[1..]| && list[1..][j] == tail[i];
        assert active[list[0]].access > active[list[j + 1]].access;
      }
      PushRecency(active - {path}, tail, list[0]);
    }
  }

  lemma {:induction false} WithoutKeeps(list: seq<string>, path: string)
    ensures forall p :: p in Without(list, path) ==> p in list
  {
    if list != [] && list[0] != path {
      WithoutKeeps(list[1..], path);
    }
  }

  lemma PushRecency(active: map<string, Entry>, tail: seq<string>, path: string)
    requires path in active && IsRecency(active - {path}, tail)
    requires forall i :: 0 <= i < |tail| ==> active[path].access > active[tail[i]].access
    ensures IsRecency(active, [path] + tail)
  {
    var rest, list := active - {path}, [path] + tail;
    assert |active| == |rest| + 1;
    assert forall i :: 0 < i < |list| ==> list[i] == tail[i - 1] && list[i] in rest && rest[list[i]] == active[list[i]];
  }

  lemma LastWithout(list: seq<string>, last: string)
    requires |list| > 0 && list[|list| - 1] == last
    requires forall i, j :: 0 <= i < j < |list| ==> list[i] != list[j]
    ensures Without(list, last) == list[..|list| - 1]
  {
    if |list| > 1 {
      LastWithout(list[1..], last);
    }
  }

  /** Putting a path with a newer stamp than all others moves it to the front. */
  lemma PutRecency(active: map<string, Entry>, list: seq<string>, path: string, e: Entry)
    requires IsRecency(active, list) && forall p :: p in active ==> active[p].access < e.access
    ensures IsRecency(active[path := e], [path] + Without(list, path))
  {
    RecencyCovers(active, list, path);
    if path in active {
      RemoveRecency(active, list, path);
    }
    var tail := Without(list, path);
    var next := active[path := e];
    assert next - {path} == active - {path};
    assert path !in active ==> active - {path} == active;
    forall i | 0 <= i < |tail| ensures next[path].access > next[tail[i]].access {
      assert tail[i] in active - {path};
    }
    PushRecency(next, tail, path);
  }

  /**
   Routing a row does to the stamps what using its partition does to the recency
   list: in particular the part that a full table evicts is the tail.
   */
  lemma RouteUses(env: Env, s: State, w: World, row: Row, list: seq<string>)
    requires Ready(env, s, w) && |s.active| <= env.settings.maxOpen && IsRecency(s.active, list)
    ensures var o := RouteRow(env, s, w, row);
            o.result.Ok? ==>
              && Locate(env.dataset, row).Ok?
              && IsRecency(o.result.value.active,
                           Use(list, Locate(env.dataset, row).value.partition.path, env.settings.maxOpen))
  {
    hide Stamped, EnsureEntry, AppendRow, IsRecency, Use;
    var located := Locate(env.dataset, row);
    if located.Ok? {
      var path, datetime := located.value.partition.path, located.value.datetime;
      EnsureFacts(env, s, w, path, datetime, row);
      var ensured := EnsureEntry(env, s, w, path, datetime, row);
      if ensured.result.Ok? {
        var s1 := ensured.result.value;
        EnsureUses(env, s, w, path, datetime, row, list);
        AppendFacts(env, s1, ensured.world, path, datetime, row);
        var o := AppendRow(env, s1, ensured.world, path, datetime, row);
        if o.result.Ok? {
          AppendUses(env, s1, ensured.world, path, Without(Use(list, path, env.settings.maxOpen), path),
                     o.result.value);
          UseAgain(list, path, env.settings.maxOpen);
        }
      }
    }
  }

  /** Using a partition twice in a row is using it once. */
  lemma UseAgain(list: seq<string>, path: string, max: nat)
    requires max > 0
    ensures [path] + Without(Use(list, path, max), path) == Use(list, path, max)
  {
    assert Use(list, path, max)[1..] == Without(Use(list, path, max), path);
  }

  lemma AppendUses(env: Env, s: State, w: World, path: string, others: seq<string>, s': State)
    requires Ready(env, s, w) && path in s.active && path in s'.active
    requires s'.active == s.active[path := s'.active[path]] && s'.active[path].access == s.access + 1
    requires exists list :: IsRecency(s.active, list) && Without(list, path) == others
    ensures IsRecency(s'.active, [path] + others)
  {
    hide IsRecency, Without;
    var list :| IsRecency(s.active, list) && Without(list, path) == others;
    assert forall p :: p in s.active ==> s.active[p].access <= s.access;
    PutRecency(s.active, list, path, s'.active[path]);
  }

  /** Making sure that a partition has a part to append to leaves a list whose use equals the use of the old list. */
  lemma EnsureUses(env: Env, s: State, w: World, path: string, datetime: int, row: Row, list: seq<string>)
    requires Ready(env, s, w) && |s.active| <= env.settings.maxOpen && IsRecency(s.active, list)
    ensures var o := EnsureEntry(env, s, w, path, datetime, row);
            var used := Use(list, path, env.settings.maxOpen);
            o.result.Ok? ==>
              exists next :: IsRecency(o.result.value.active, next) && Without(next, path) == Without(used, path)
  {
    hide PublishEntry, OpenEntry, IsRecency, Without;
    var o := EnsureEntry(env, s, w, path, datetime, row);
    var max := env.settings.maxOpen;
    UseWithout(s.active, list, path, max);
    if o.result.Ok? && (path !in s.active || Full(env, s.active[path], row)) {
      var before := list;
      if path in s.active {
        PublishFacts(env, s, w, path);
        RemoveRecency(s.active, list, path);
        before := Without(list, path);
      } else if |s.active| >= max {
        var victim := LeastRecent(s);
        PublishFacts(env, s, w, victim);
        OldestIsTail(s, list);
        RemoveRecency(s.active, list, victim);
        before := Without(list, victim);
        DropTail(s.active, list);
      }
      var room := if path in s.active then PublishEntry(env, s, w, path) else MakeRoom(env, s, w);
      var s1 := room.result.value;
      OpenFacts(env, s1, room.world, path, datetime);
      PutRecency(s1.active, before, path, o.result.value.active[path]);
      AbsentWithout(s1.active, before, path);
      var next := [path] + Without(before, path);
      FirstWithout(path, Without(before, path));
      assert IsRecency(o.result.value.active, next);
      assert Without(next, path) == before;
    }
  }

  lemma FirstWithout(path: string, tail: seq<string>)
    ensures Without([path] + tail, path) == tail
  {
  }

  lemma AbsentWithout(active: map<string, Entry>, list: seq<string>, path: string)
    requires IsRecency(active, list) && path !in active
    ensures Without(list, path) == list
  {
    RecencyCovers(active, list, path);
  }

  lemma DropTail(active: map<string, Entry>, list: seq<string>)
    requires IsRecency(active, list) && |list| > 0
    ensures Without(list, list[|list| - 1]) == list[..|list| - 1]
  {
    forall i, j | 0 <= i < j < |list| ensures list[i] != list[j] {
      assert active[list[i]].access > active[list[j]].access;
    }
    LastWithout(list, list[|list| - 1]);
  }

  lemma UseWithout(active: map<string, Entry>, list: seq<string>, path: string, max: nat)
    requires max > 0 && IsRecency(active, list)
    ensures Without(Use(list, path, max), path) ==
            if path in active then Without(list, path)
            else if |active| < max then list
            else list[..|list| - 1]
  {
    RecencyCovers(active, list, path);
    var tail := if path in list then Without(list, path) else if |list| < max then list else list[..|list| - 1];
    FirstWithout(path, tail);
  }
}
