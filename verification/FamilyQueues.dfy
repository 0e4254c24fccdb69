/** The body pass's window over the activations of every packet family (gear_optimizer/frontier/producer_kernels.py): one
    array of queue rows shared by the families, with heads, tails, compaction and growth. */
module FamilyQueues {
  import opened SkylineQueue
  import BodyHull

  // ---- What one push does.

  ghost predicate BeatenBy(packet: seq<Point>, x: Point) { exists p :: 0 <= p < |packet| && Dominates(packet[p], x) }

  ghost function Survivors(rows: seq<Queued>, packet: seq<Point>): (r: seq<Queued>)
    ensures |r| <= |rows|
  {
    if rows == [] then []
    else
      var last := rows[|rows| - 1];
      Survivors(rows[..|rows| - 1], packet) + (if BeatenBy(packet, last.point) then [] else [last])
  }

  function NewRows(packet: seq<Point>, activation: int): (r: seq<Queued>)
    ensures |r| == |packet| && forall i :: 0 <= i < |r| ==> r[i] == Queued(packet[i], activation)
  {
    seq(|packet|, i requires 0 <= i < |packet| => Queued(packet[i], activation))
  }

  ghost function Pushed(rows: seq<Queued>, packet: seq<Point>, activation: int): seq<Queued> {
    Survivors(rows, packet) + NewRows(packet, activation)
  }

  // ---- The shared array.

  ghost predicate Valid(queue: array2<Queued>, heads: array<nat>, tails: array<nat>)
    reads queue, heads, tails
  {
    && heads != tails && heads.Length == tails.Length == queue.Length0 && queue.Length1 > 0
    && forall q :: 0 <= q < heads.Length ==> heads[q] <= tails[q] <= queue.Length1
  }

  ghost function Live(queue: array2<Queued>, q: nat, head: nat, tail: nat): (r: seq<Queued>)
    requires q < queue.Length0 && head <= tail <= queue.Length1
    reads queue
    ensures |r| == tail - head && forall i :: 0 <= i < |r| ==> r[i] == queue[q, head + i]
  {
    seq(tail - head, i requires 0 <= i < tail - head reads queue => queue[q, head + i])
  }

  ghost function Contents(queue: array2<Queued>, heads: array<nat>, tails: array<nat>, q: nat): seq<Queued>
    requires Valid(queue, heads, tails) && q < heads.Length
    reads queue, heads, tails
  {
    Live(queue, q, heads[q], tails[q])
  }

  lemma SurvivorsMore(rows: seq<Queued>, packet: seq<Point>, k: nat)
    requires k < |rows|
    ensures Survivors(rows[..k + 1], packet)
            == Survivors(rows[..k], packet) + (if BeatenBy(packet, rows[k].point) then [] else [rows[k]])
  {
    hide BeatenBy;
    assert rows[..k + 1][..k] == rows[..k];
  }

  lemma NoSurvivors(packet: seq<Point>)
    ensures Survivors([], packet) == []
  {
  }

  method IsBeaten(packet: seq<Point>, x: Point) returns (beaten: bool)
    ensures beaten <==> BeatenBy(packet, x)
  {
    for p := 0 to |packet|
      invariant forall k :: 0 <= k < p ==> !Dominates(packet[k], x)
    {
      if Dominates(packet[p], x) { return true; }
    }
    beaten := false;
  }

  /** Drops the rows of one family that a packet's rows dominate. */
  method DropBeaten(queue: array2<Queued>, f: nat, head: nat, tail: nat, packet: seq<Point>) returns (write: nat)
    requires f < queue.Length0 && head <= tail <= queue.Length1
    modifies queue
    ensures head <= write <= tail && Live(queue, f, head, write) == Survivors(old(Live(queue, f, head, tail)), packet)
    ensures forall q, c :: 0 <= q < queue.Length0 && 0 <= c < queue.Length1 && q != f ==> queue[q, c] == old(queue[q, c])
  {
    hide BeatenBy, Survivors;
    ghost var rows := Live(queue, f, head, tail);
    write := head;
    NoSurvivors(packet);
    for row := head to tail
      invariant head <= write <= row && Live(queue, f, head, write) == Survivors(rows[..row - head], packet)
      invariant forall c :: row <= c < tail ==> queue[f, c] == rows[c - head]
      invariant forall q, c :: 0 <= q < queue.Length0 && 0 <= c < queue.Length1 && q != f ==> queue[q, c] == old(queue[q, c])
    {
      SurvivorsMore(rows, packet, row - head);
      var beaten := IsBeaten(packet, queue[f, row].point);
      if !beaten {
        ghost var kept := Live(queue, f, head, write);
        var x := queue[f, row];
        queue[f, write] := x;
        write := write + 1;
        assert Live(queue, f, head, write) == kept + [x];
      }
    }
    assert rows[..tail - head] == rows;
  }

  /** Makes room for `count` more rows of one family: its live rows move to the front, and the array doubles until they fit. */
  method MakeRoom(queue: array2<Queued>, f: nat, head: nat, write: nat, count: nat)
    returns (queue': array2<Queued>, head': nat, write': nat)
    requires f < queue.Length0 && head <= write <= queue.Length1 && queue.Length1 > 0
    modifies queue
    ensures queue' == queue || fresh(queue')
    ensures queue'.Length0 == queue.Length0 && queue'.Length1 >= queue.Length1
    ensures head' <= write' && write' + count <= queue'.Length1
    ensures Live(queue', f, head', write') == old(Live(queue, f, head, write))
    ensures forall q, c :: 0 <= q < queue.Length0 && 0 <= c < queue.Length1 && q != f ==> queue'[q, c] == old(queue[q, c])
  {
    queue', head', write' := queue, head, write;
    if write + count <= queue.Length1 { return; }
    ghost var rows := Live(queue, f, head, write);
    for row := head to write
      invariant forall c :: row <= c < write ==> queue[f, c] == rows[c - head]
      invariant forall c :: 0 <= c < row - head ==> queue[f, c] == rows[c]
      invariant forall q, c :: 0 <= q < queue.Length0 && 0 <= c < queue.Length1 && q != f ==> queue[q, c] == old(queue[q, c])
    {
      queue[f, row - head] := queue[f, row];
    }
    head', write' := 0, write - head;
    assert Live(queue, f, head', write') == rows;
    if write' + count > queue.Length1 {
      var capacity := queue.Length1;
      while capacity < write' + count
        invariant capacity >= queue.Length1
        decreases write' + count - capacity
      {
        capacity := capacity * 2;
      }
      var blank := Queued(Point(0, 0, 0), 0);
      queue' := new Queued[queue.Length0, capacity]((_, _) => blank);
      forall q, c | 0 <= q < queue.Length0 && 0 <= c < queue.Length1 {
        queue'[q, c] := queue[q, c];
      }
      assert Live(queue', f, head', write') == rows;
    }
  }

  /** Appends one activation's packet to its family's queue, dropping the rows it dominates; the other families keep theirs. */
  method Push(queue: array2<Queued>, heads: array<nat>, tails: array<nat>, f: nat, activation: int, packet: seq<Point>)
    returns (queue': array2<Queued>)
    requires Valid(queue, heads, tails) && f < heads.Length
    modifies queue, heads, tails
    ensures (queue' == queue || fresh(queue')) && Valid(queue', heads, tails)
    ensures Contents(queue', heads, tails, f) == Pushed(old(Contents(queue, heads, tails, f)), packet, activation)
    ensures forall q :: 0 <= q < heads.Length && q != f ==> Contents(queue', heads, tails, q) == old(Contents(queue, heads, tails, q))
  {
    hide Survivors;
    ghost var others := seq(heads.Length, q requires 0 <= q < heads.Length reads queue, heads, tails requires Valid(queue, heads, tails) => Contents(queue, heads, tails, q));
    var write := DropBeaten(queue, f, heads[f], tails[f], packet);
    ghost var rows := Live(queue, f, heads[f], write);
    var head;
    queue', head, write := MakeRoom(queue, f, heads[f], write, |packet|);
    assert Live(queue', f, head, write) == rows;
    ghost var start := write;
    for p := 0 to |packet|
      invariant write == start + p && write + (|packet| - p) <= queue'.Length1
      invariant forall i :: 0 <= i < |rows| ==> queue'[f, head + i] == rows[i]
      invariant forall i :: 0 <= i < p ==> queue'[f, start + i] == Queued(packet[i], activation)
      invariant forall q, c :: 0 <= q < queue'.Length0 && 0 <= c < queue.Length1 && q != f ==> queue'[q, c] == old(queue[q, c])
      invariant heads[..] == old(heads[..]) && tails[..] == old(tails[..])
    {
      queue'[f, write] := Queued(packet[p], activation);
      write := write + 1;
    }
    heads[f] := head;
    tails[f] := write;
    assert Live(queue', f, head, write) == rows + NewRows(packet, activation);
    forall q | 0 <= q < heads.Length && q != f ensures Contents(queue', heads, tails, q) == others[q] {
      assert heads[q] == old(heads[..])[q] && tails[q] == old(tails[..])[q];
    }
  }

  // ---- The window.

  /** One family: its activations of state s are s + start to s + end; a packet per activation of the chart. */
  datatype Family = Family(start: int, end: int, packets: seq<seq<Point>>)

  function PacketAt(packets: seq<seq<Point>>, activation: int): seq<Point> {
    if 0 <= activation < |packets| then packets[activation] else []
  }

  /** The queue holds rows of the window's packets only, newest last, and for every row of a packet in the window one at
      least as good whose activation stays in later windows as long. */
  ghost predicate Window(rows: seq<Queued>, packets: seq<seq<Point>>, lo: int, hi: int) {
    && (forall i :: 0 <= i < |rows| ==> lo <= rows[i].activation <= hi && rows[i].point in PacketAt(packets, rows[i].activation))
    && (forall i, j :: 0 <= i < j < |rows| ==> rows[i].activation >= rows[j].activation)
    && (forall a, p :: lo <= a <= hi && p in PacketAt(packets, a) ==> Held(rows, a, p))
  }

  ghost predicate Held(rows: seq<Queued>, activation: int, p: Point) {
    exists i :: 0 <= i < |rows| && rows[i].activation <= activation && Dominates(rows[i].point, p)
  }

  ghost predicate StateWindow(rows: seq<Queued>, f: Family, state: int) {
    Window(rows, f.packets, state + f.start, state + f.end)
  }

  lemma EmptyWindow(f: Family, n: int)
    requires |f.packets| <= n + f.start
    ensures StateWindow([], f, n)
  {
  }

  /** Rows past the new upper end leave at the head. */
  lemma PopWindow(rows: seq<Queued>, packets: seq<seq<Point>>, lo: int, hi: int, hi': int, k: nat)
    requires Window(rows, packets, lo, hi) && hi' <= hi && k <= |rows|
    requires forall i :: 0 <= i < k ==> rows[i].activation > hi'
    requires k < |rows| ==> rows[k].activation <= hi'
    ensures Window(rows[k..], packets, lo, hi') && (lo > hi' ==> rows[k..] == [])
  {
    hide Held, PacketAt;
    var rest := rows[k..];
    assert forall i :: 0 <= i < |rest| ==> rest[i] == rows[k + i];
    forall i | 0 <= i < |rest| ensures lo <= rest[i].activation <= hi' && rest[i].point in PacketAt(packets, rest[i].activation) {
      assert rest[i] == rows[k + i];
      if i > 0 { assert rows[k].activation >= rows[k + i].activation; }
    }
    forall a, p | lo <= a <= hi' && p in PacketAt(packets, a) ensures Held(rest, a, p) {
      assert Held(rows, a, p);
      HeldAfterPop(rows, a, p, hi', k);
    }
  }

  lemma HeldAfterPop(rows: seq<Queued>, a: int, p: Point, hi: int, k: nat)
    requires Held(rows, a, p) && a <= hi && k <= |rows| && forall i :: 0 <= i < k ==> rows[i].activation > hi
    ensures Held(rows[k..], a, p)
  {
    hide Dominates;
    var i :| 0 <= i < |rows| && rows[i].activation <= a && Dominates(rows[i].point, p);
    assert rows[k..][i - k] == rows[i];
  }

  lemma {:induction false} SurvivorsFrom(rows: seq<Queued>, packet: seq<Point>)
    ensures forall x :: x in Survivors(rows, packet) <==> x in rows && !BeatenBy(packet, x.point)
    ensures (forall i, j :: 0 <= i < j < |rows| ==> rows[i].activation >= rows[j].activation) ==>
              forall i, j :: 0 <= i < j < |Survivors(rows, packet)| ==> Survivors(rows, packet)[i].activation >= Survivors(rows, packet)[j].activation
  {
    hide BeatenBy;
    if rows != [] {
      var front := rows[..|rows| - 1];
      SurvivorsFrom(front, packet);
      forall x | x in Survivors(front, packet) ensures x in rows { }
    }
  }

  /** The next lower activation's packet extends the window, whether or not it has rows. */
  lemma PushWindow(rows: seq<Queued>, packets: seq<seq<Point>>, lo: int, hi: int)
    requires Window(rows, packets, lo + 1, hi) && lo <= hi
    ensures Window(Pushed(rows, PacketAt(packets, lo), lo), packets, lo, hi)
  {
    hide Dominates, Survivors, PacketAt;
    var packet := PacketAt(packets, lo);
    var next := Pushed(rows, packet, lo);
    SurvivorsFrom(rows, packet);
    forall i | 0 <= i < |next| ensures lo <= next[i].activation <= hi && next[i].point in PacketAt(packets, next[i].activation) {
      if i < |Survivors(rows, packet)| { assert next[i] in Survivors(rows, packet); }
    }
    forall i, j | 0 <= i < j < |next| ensures next[i].activation >= next[j].activation {
      if i < |Survivors(rows, packet)| { assert next[i] in Survivors(rows, packet); }
    }
    forall a, p | lo <= a <= hi && p in PacketAt(packets, a) ensures Held(next, a, p) {
      if a == lo { NewHeld(rows, packet, lo, p); } else { StillHeld(rows, packet, lo, a, p); }
    }
  }

  lemma NewHeld(rows: seq<Queued>, packet: seq<Point>, lo: int, p: Point)
    requires p in packet
    ensures Held(Pushed(rows, packet, lo), lo, p)
  {
    hide Survivors;
    var k :| 0 <= k < |packet| && packet[k] == p;
    assert Pushed(rows, packet, lo)[|Survivors(rows, packet)| + k] == Queued(p, lo);
  }

  lemma StillHeld(rows: seq<Queued>, packet: seq<Point>, lo: int, a: int, p: Point)
    requires Held(rows, a, p) && lo < a
    ensures Held(Pushed(rows, packet, lo), a, p)
  {
    hide Survivors;
    SurvivorsFrom(rows, packet);
    var next := Pushed(rows, packet, lo);
    var i :| 0 <= i < |rows| && rows[i].activation <= a && Dominates(rows[i].point, p);
    if BeatenBy(packet, rows[i].point) {
      var k :| 0 <= k < |packet| && Dominates(packet[k], rows[i].point);
      assert next[|Survivors(rows, packet)| + k] == Queued(packet[k], lo);
    } else {
      assert rows[i] in Survivors(rows, packet);
      var k :| 0 <= k < |Survivors(rows, packet)| && Survivors(rows, packet)[k] == rows[i];
      assert next[k] == rows[i];
    }
  }

  lemma NoRowsPushed(rows: seq<Queued>, activation: int)
    ensures Pushed(rows, [], activation) == rows
  {
    hide BeatenBy;
    NoneBeaten(rows);
  }

  lemma {:induction false} NoneBeaten(rows: seq<Queued>)
    ensures Survivors(rows, []) == rows
  {
    if rows != [] {
      NoneBeaten(rows[..|rows| - 1]);
      assert !BeatenBy([], rows[|rows| - 1].point);
    }
  }

  /** Moves one family's window down to a state: expired rows leave at the head, then the activations the window newly
      reaches are pushed, each once, in descending order. */
  method Advance(queue: array2<Queued>, heads: array<nat>, tails: array<nat>, f: nat, family: Family, next: int, state: int)
    returns (queue': array2<Queued>)
    requires Valid(queue, heads, tails) && f < heads.Length && state <= next
    requires StateWindow(Contents(queue, heads, tails, f), family, next + 1)
    modifies queue, heads, tails
    ensures (queue' == queue || fresh(queue')) && Valid(queue', heads, tails)
    ensures StateWindow(Contents(queue', heads, tails, f), family, state)
    ensures forall q :: 0 <= q < heads.Length && q != f ==> Contents(queue', heads, tails, q) == old(Contents(queue, heads, tails, q))
  {
    hide Window, PacketAt;
    queue' := queue;
    var high := state + family.end;
    ghost var rows := Contents(queue, heads, tails, f);
    while heads[f] < tails[f] && queue[f, heads[f]].activation > high
      invariant old(heads[f]) <= heads[f] <= tails[f] == old(tails[f])
      invariant forall q :: 0 <= q < heads.Length && q != f ==> heads[q] == old(heads[q]) && tails[q] == old(tails[q])
      invariant forall i :: 0 <= i < heads[f] - old(heads[f]) ==> rows[i].activation > high
      invariant forall q, c :: 0 <= q < queue.Length0 && 0 <= c < queue.Length1 ==> queue[q, c] == old(queue[q, c])
      decreases tails[f] - heads[f]
    {
      heads[f] := heads[f] + 1;
    }
    ghost var popped := heads[f] - old(heads[f]);
    assert Contents(queue, heads, tails, f) == rows[popped..];
    PopWindow(rows, family.packets, next + 1 + family.start, next + 1 + family.end, high, popped);
    var push := if next <= high - family.start then next else high - family.start;
    if high - family.start < next { EmptyRange(family.packets, next + 1 + family.start, push + 1 + family.start, high); }
    while push >= state
      invariant state - 1 <= push || push == high - family.start
      invariant queue' == queue || fresh(queue')
      invariant Valid(queue', heads, tails) && push <= high - family.start
      invariant Window(Contents(queue', heads, tails, f), family.packets, push + 1 + family.start, high)
      invariant forall q :: 0 <= q < heads.Length && q != f ==> Contents(queue', heads, tails, q) == old(Contents(queue, heads, tails, q))
      decreases push - state
    {
      var activation := push + family.start;
      var packet := PacketAt(family.packets, activation);
      PushWindow(Contents(queue', heads, tails, f), family.packets, activation, high);
      if |packet| > 0 {
        queue' := Push(queue', heads, tails, f, activation, packet);
      } else {
        NoRowsPushed(Contents(queue', heads, tails, f), activation);
      }
      push := push - 1;
    }
    if push < state - 1 { EmptyRange(family.packets, push + 1 + family.start, state + family.start, high); }
  }

  lemma NonEmptyWindow(rows: seq<Queued>, packets: seq<seq<Point>>, lo: int, hi: int)
    requires Window(rows, packets, lo, hi) && rows != []
    ensures lo <= hi
  {
    hide PacketAt, Held;
    var first := rows[0].activation;
  }

  /** With no activation in it, a window's ends do not matter. */
  lemma EmptyRange(packets: seq<seq<Point>>, lo: int, lo': int, hi: int)
    requires lo > hi && lo' > hi
    ensures forall rows: seq<Queued> :: Window(rows, packets, lo, hi) ==> Window(rows, packets, lo', hi)
  {
    hide PacketAt;
    forall rows: seq<Queued> | Window(rows, packets, lo, hi) ensures rows == [] {
      if rows != [] { NonEmptyWindow(rows, packets, lo, hi); }
    }
  }

  // ---- The whole pass.

  /** What each processed state reads: its queues' rows, family by family. */
  ghost predicate ReadsWindows(read: map<int, seq<seq<Queued>>>, families: seq<Family>, state: int) {
    state in read && |read[state]| == |families|
    && forall q :: 0 <= q < |families| ==> StateWindow(read[state][q], families[q], state)
  }

  const HEAD_NOTES := 100

  /** The states from the last down to the head's, skipping the unreachable ones. */
  method Run(n: nat, reachable: seq<bool>, families: seq<Family>) returns (read: map<int, seq<seq<Queued>>>)
    requires |reachable| == n + 1
    requires forall q :: 0 <= q < |families| ==> |families[q].packets| <= n && families[q].start >= 0
    ensures forall state :: HEAD_NOTES <= state < n && reachable[state] ==> ReadsWindows(read, families, state)
  {
    hide StateWindow;
    read := map[];
    var count := if |families| > 0 then |families| else 1;
    var blank := Queued(Point(0, 0, 0), 0);
    var queue := new Queued[count, 16]((_, _) => blank);
    var heads, tails := new nat[count](_ => 0), new nat[count](_ => 0);
    var next := n - 1;
    forall q | 0 <= q < |families| ensures StateWindow(Contents(queue, heads, tails, q), families[q], next + 1) {
      EmptyWindow(families[q], n);
      assert Contents(queue, heads, tails, q) == [];
    }
    var state := n - 1;
    while state >= HEAD_NOTES
      invariant state <= next
      invariant fresh(queue) && fresh(heads) && fresh(tails) && heads.Length == count && Valid(queue, heads, tails)
      invariant forall q :: 0 <= q < |families| ==> StateWindow(Contents(queue, heads, tails, q), families[q], next + 1)
      invariant forall s :: HEAD_NOTES <= s < n && s > state && reachable[s] ==> ReadsWindows(read, families, s)
      decreases state
    {
      if reachable[state] {
        var rows: seq<seq<Queued>> := [];
        for q := 0 to |families|
          invariant fresh(queue) && heads.Length == count && Valid(queue, heads, tails) && |rows| == q
          invariant forall p :: 0 <= p < q ==> StateWindow(Contents(queue, heads, tails, p), families[p], state) && StateWindow(rows[p], families[p], state)
          invariant forall p :: q <= p < |families| ==> StateWindow(Contents(queue, heads, tails, p), families[p], next + 1)
        {
          queue := Advance(queue, heads, tails, q, families[q], next, state);
          rows := rows + [ReadRows(queue, q, heads[q], tails[q])];
        }
        next := state - 1;
        read := read[state := rows];
      }
      state := state - 1;
    }
  }

  function ReadRows(queue: array2<Queued>, q: nat, head: nat, tail: nat): (r: seq<Queued>)
    requires q < queue.Length0 && head <= tail <= queue.Length1
    reads queue
    ensures r == Live(queue, q, head, tail)
  {
    seq(tail - head, i requires 0 <= i < tail - head reads queue => queue[q, head + i])
  }

  // ---- Nothing of a window is lost to the state's frontier.

  /** A packet row's counts as state s reads them. */
  function AtState(p: Point, state: int): BodyHull.Row { BodyHull.Row(p.fever, p.normal - 2 * state, p.great, 0) }

  /** The rows read cover every packet row of the window in every direction of the score. */
  lemma ReadCoversWindow(rows: seq<Queued>, f: Family, state: int, a: int, p: Point, batch: seq<BodyHull.Row>)
    requires StateWindow(rows, f, state) && state + f.start <= a <= state + f.end && p in PacketAt(f.packets, a)
    requires forall i :: 0 <= i < |rows| ==> AtState(rows[i].point, state) in batch
    ensures BodyHull.Covers(batch, AtState(p, state))
  {
    hide BodyHull.Value;
    assert Held(rows, a, p);
    var i :| 0 <= i < |rows| && rows[i].activation <= a && Dominates(rows[i].point, p);
    var x, y := AtState(rows[i].point, state), AtState(p, state);
    var k :| 0 <= k < |batch| && batch[k] == x;
    forall d | BodyHull.IsCost(d) ensures BodyHull.Reaches(batch, d, BodyHull.Value(d, y)) {
      BodyHull.DominatesInValue(d, x, y);
    }
  }
}
