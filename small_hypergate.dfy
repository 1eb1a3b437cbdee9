/** Small hypergates: a gate is spawned with a ring of builder entities,
    opens after half the base time, and is despawned after one and a half
    base times; its output marker lives for three base times. Times are
    `Duration`s, counted in nanoseconds. */
module SmallHypergates {
  import opened Engine

  const GATE_BUILDER_COUNT: nat := 6
  /** 2.5 seconds. */
  const GATE_BASE_TIME: nat := 2_500_000_000
  /** A gate opens once this long has elapsed since it was spawned. */
  const OPEN_AFTER: nat := GATE_BASE_TIME / 2
  /** A gate is despawned once this long has elapsed since it was spawned. */
  const CLOSE_AFTER: nat := GATE_BASE_TIME * 3 / 2
  /** An output marker is despawned once this long has elapsed. */
  const OUTPUT_LIFETIME: nat := GATE_BASE_TIME * 3

  /** The request to create a gate. */
  datatype CreateSmallHypergate = CreateSmallHypergate(
    spawnCell: Cell, spawnTransform: Transform, targetCell: Cell, targetTransform: Transform)

  /** The gate component. */
  datatype SmallHypergate = SmallHypergate(
    builders: seq<Entity>, eventSended: bool, startTime: nat,
    targetCell: Cell, targetTransform: Transform, isOpen: bool)

  /** A builder on the gate's rim and the two builders it draws beams to. */
  datatype Builder = Builder(entity: Entity, neighbors: seq<Entity>)

  /** Everything spawning one gate creates: the parent placed at the spawn
      cell, the gate entity under it with its builders, and the output
      marker at the target cell. */
  datatype GateSpawn = GateSpawn(
    parent: Entity, parentCell: Cell, parentTransform: Transform,
    gate: Entity, hypergate: SmallHypergate, builders: seq<Builder>,
    output: Entity, outputCell: Cell, outputTranslation: Vec3, outputStart: nat)

  /** The indices of the two builders next to builder `i` on a ring of `n`:
      the next one and the previous one. */
  function Neighbors(i: nat, n: nat): (r: seq<nat>)
    requires i < n
    ensures |r| == 2 && r[0] < n && r[1] < n
  {
    [(i + 1) % n, (i + n - 1) % n]
  }

  /** On a ring of at least three, a builder is never its own neighbour and
      its two neighbours are different builders. */
  lemma NeighborsDistinct(i: nat, n: nat)
    requires 3 <= n && i < n
    ensures i !in Neighbors(i, n)
    ensures Neighbors(i, n)[0] != Neighbors(i, n)[1]
  {
    if i + 1 < n {
      assert (i + 1) % n == i + 1;
    } else {
      assert (i + 1) % n == 0;
    }
    if i == 0 {
      assert (i + n - 1) % n == n - 1;
    } else {
      assert (i + n - 1) % n == i - 1;
    }
  }

  /** The neighbour relation is symmetric. */
  lemma NeighborsSymmetric(i: nat, j: nat, n: nat)
    requires i < n && j < n
    ensures j in Neighbors(i, n) <==> i in Neighbors(j, n)
  {
    NextPrev(i, n);
    NextPrev(j, n);
    if j == (i + 1) % n {
      assert i == (j + n - 1) % n;
    }
    if j == (i + n - 1) % n {
      assert i == (j + 1) % n;
    }
  }

  /** Going to the next builder and the previous one are inverse steps. */
  lemma NextPrev(i: nat, n: nat)
    requires i < n
    ensures ((i + 1) % n + n - 1) % n == i
    ensures ((i + n - 1) % n + 1) % n == i
  {
    if i + 1 < n {
      ModOfSmall(i + 1, n);
      ModOfWrapped(i + n, n);
    } else {
      ModOfWrapped(i + 1, n);
      ModOfSmall(n - 1, n);
    }
    if i == 0 {
      ModOfSmall(n - 1, n);
      ModOfWrapped(n, n);
    } else {
      ModOfWrapped(i + n - 1, n);
      ModOfSmall(i, n);
    }
  }

  lemma ModOfSmall(a: nat, n: nat)
    requires a < n
    ensures a % n == a
  {
  }

  lemma ModOfWrapped(a: nat, n: nat)
    requires n <= a < 2 * n
    ensures a % n == a - n
  {
    assert a == n * 1 + (a - n);
  }

  /** No entity occurs twice. */
  predicate Distinct(es: seq<Entity>) {
    forall a, b :: 0 <= a < |es| && 0 <= b < |es| && a != b ==> es[a] != es[b]
  }

  /** `builders` links `entities` into a ring: builder `i` is entity `i`,
      and its neighbours are the entities next to it and before it. */
  predicate LinksRing(entities: seq<Entity>, builders: seq<Builder>) {
    0 < |entities| == |builders| &&
    forall i :: 0 <= i < |builders| ==>
      builders[i] == Builder(entities[i], [entities[Neighbors(i, |entities|)[0]],
                                           entities[Neighbors(i, |entities|)[1]]])
  }

  /** In a ring of distinct builders, `j` draws a beam to `i` exactly when
      `i` draws one to `j`. */
  lemma RingSymmetric(entities: seq<Entity>, builders: seq<Builder>, i: nat, j: nat)
    requires LinksRing(entities, builders) && Distinct(entities)
    requires i < |builders| && j < |builders|
    ensures builders[j].entity in builders[i].neighbors <==> builders[i].entity in builders[j].neighbors
  {
    var n := |entities|;
    NeighborsSymmetric(i, j, n);
    var ni, nj := Neighbors(i, n), Neighbors(j, n);
    assert builders[j].entity in builders[i].neighbors <==> j in ni;
    assert builders[i].entity in builders[j].neighbors <==> i in nj;
  }

  /** In a ring of at least three distinct builders, no builder draws a beam
      to itself and its two beams go to different builders. */
  lemma RingHasNoLoops(entities: seq<Entity>, builders: seq<Builder>, i: nat)
    requires LinksRing(entities, builders) && Distinct(entities)
    requires 3 <= |entities| && i < |builders|
    ensures builders[i].entity !in builders[i].neighbors
    ensures builders[i].neighbors[0] != builders[i].neighbors[1]
  {
    NeighborsDistinct(i, |entities|);
  }

  /** The builder ring of one gate: `GATE_BUILDER_COUNT` fresh entities
      `first`, `first + 1`, ..., linked into a ring. */
  method SpawnBuilders(first: Entity) returns (entities: seq<Entity>, builders: seq<Builder>)
    ensures |entities| == GATE_BUILDER_COUNT
    ensures forall i :: 0 <= i < |entities| ==> entities[i] == first + i
    ensures Distinct(entities) && LinksRing(entities, builders)
  {
    entities := [];
    for k := 0 to GATE_BUILDER_COUNT
      invariant |entities| == k
      invariant forall i :: 0 <= i < k ==> entities[i] == first + i
    {
      entities := entities + [first + k];
    }
    builders := [];
    for i := 0 to GATE_BUILDER_COUNT
      invariant |builders| == i
      invariant forall k :: 0 <= k < i ==>
                  builders[k] == Builder(entities[k], [entities[Neighbors(k, |entities|)[0]],
                                                       entities[Neighbors(k, |entities|)[1]]])
    {
      var neighbors := [entities[(i + 1) % GATE_BUILDER_COUNT],
                        entities[(i + GATE_BUILDER_COUNT - 1) % GATE_BUILDER_COUNT]];
      builders := builders + [Builder(entities[i], neighbors)];
    }
  }

  /** The entities one gate spawn creates, besides the gate mesh. */
  function EntitiesOf(s: GateSpawn): seq<Entity> {
    [s.parent, s.gate] + s.hypergate.builders + [s.output]
  }

  /** Entities spawned per gate: parent, gate, builders, mesh and output. */
  const ENTITIES_PER_GATE: nat := GATE_BUILDER_COUNT + 4

  /** The spawn for `q` at time `now`, whose entities lie in `[lo, hi)`. */
  predicate SpawnedFor(s: GateSpawn, q: CreateSmallHypergate, now: nat, lo: nat, hi: nat) {
    s.parentCell == q.spawnCell && s.parentTransform == q.spawnTransform &&
    s.hypergate == SmallHypergate(s.hypergate.builders, false, now, q.targetCell, q.targetTransform, false) &&
    |s.hypergate.builders| == GATE_BUILDER_COUNT &&
    LinksRing(s.hypergate.builders, s.builders) &&
    Distinct(EntitiesOf(s)) &&
    (forall e :: e in EntitiesOf(s) ==> lo <= e < hi) &&
    s.outputCell == q.targetCell && s.outputStart == now &&
    s.outputTranslation == Minus(q.targetTransform.translation, Vec3(10.0, 0.0, 0.0))
  }

  /** `spawn_hypergate`: for each request, in order, spawns the parent at
      the spawn cell, the gate under it with its ring of builders, and the
      output marker ten units before the target. Each gate starts closed,
      with no event sent, timed from `now` and aimed at the request's
      target; entities are fresh, taken from `next` upwards, so no two
      spawns share one. */
  method SpawnHypergate(requests: seq<CreateSmallHypergate>, now: nat, next: Entity)
    returns (spawns: seq<GateSpawn>, next': Entity)
    ensures |spawns| == |requests| && next' == next + |requests| * ENTITIES_PER_GATE
    ensures forall k :: 0 <= k < |requests| ==>
              SpawnedFor(spawns[k], requests[k], now,
                         next + k * ENTITIES_PER_GATE, next + (k + 1) * ENTITIES_PER_GATE)
  {
    spawns := [];
    next' := next;
    for k := 0 to |requests|
      invariant |spawns| == k && next' == next + k * ENTITIES_PER_GATE
      invariant forall m :: 0 <= m < k ==>
                  SpawnedFor(spawns[m], requests[m], now,
                             next + m * ENTITIES_PER_GATE, next + (m + 1) * ENTITIES_PER_GATE)
    {
      var q := requests[k];
      var parent := next';
      var gate := next' + 1;
      var entities, builders := SpawnBuilders(next' + 2);
      // the gate's polygon mesh takes the entity after the builders
      var output := next' + 2 + GATE_BUILDER_COUNT + 1;
      var hypergate := SmallHypergate(entities, false, now, q.targetCell, q.targetTransform, false);
      var s := GateSpawn(parent, q.spawnCell, q.spawnTransform, gate, hypergate, builders,
                         output, q.targetCell, Minus(q.targetTransform.translation, Vec3(10.0, 0.0, 0.0)), now);
      assert EntitiesOf(s) == [parent, gate] + entities + [output];
      assert forall i :: 0 <= i < |EntitiesOf(s)| ==> EntitiesOf(s)[i] == next' + (if i < 2 + GATE_BUILDER_COUNT then i else i + 1);
      spawns := spawns + [s];
      next' := next' + ENTITIES_PER_GATE;
    }
  }

  /** Different gate spawns of one pass share no entity. */
  lemma SpawnsAreDisjoint(spawns: seq<GateSpawn>, requests: seq<CreateSmallHypergate>, now: nat, next: Entity,
                          k: nat, m: nat, e: Entity)
    requires |spawns| == |requests| && k < |spawns| && m < |spawns| && k != m
    requires forall i :: 0 <= i < |requests| ==>
               SpawnedFor(spawns[i], requests[i], now,
                          next + i * ENTITIES_PER_GATE, next + (i + 1) * ENTITIES_PER_GATE)
    ensures e in EntitiesOf(spawns[k]) ==> e !in EntitiesOf(spawns[m])
  {
    if e in EntitiesOf(spawns[k]) {
      assert SpawnedFor(spawns[k], requests[k], now,
                        next + k * ENTITIES_PER_GATE, next + (k + 1) * ENTITIES_PER_GATE);
      assert SpawnedFor(spawns[m], requests[m], now,
                        next + m * ENTITIES_PER_GATE, next + (m + 1) * ENTITIES_PER_GATE);
      if k < m {
        assert (k + 1) * ENTITIES_PER_GATE <= m * ENTITIES_PER_GATE;
      } else {
        assert (m + 1) * ENTITIES_PER_GATE <= k * ENTITIES_PER_GATE;
      }
    }
  }

  /** One row of the gate query. */
  datatype GateRow = GateRow(entity: Entity, gate: SmallHypergate)

  /** A gate after one pass of the timer at time `now`. */
  function TickGate(g: GateRow, now: nat): GateRow
    requires g.gate.startTime <= now
  {
    if now - g.gate.startTime >= OPEN_AFTER then g.(gate := g.gate.(isOpen := true)) else g
  }

  /** The gates the timer despawns at `now`, in query order. */
  function GateDespawns(gates: seq<GateRow>, now: nat): seq<Entity> {
    if gates == [] then []
    else
      var last := gates[|gates| - 1];
      GateDespawns(gates[..|gates| - 1], now) +
        (if last.gate.startTime + CLOSE_AFTER <= now then [last.entity] else [])
  }

  /** `small_hypergate_time_system`: marks gates open and returns the gates
      to despawn. Subtracting a later start time from the clock would panic,
      so every gate must have started by `now`. */
  method SmallHypergateTimeSystem(gates: array<GateRow>, now: nat) returns (despawn: seq<Entity>)
    requires forall i :: 0 <= i < gates.Length ==> gates[i].gate.startTime <= now
    modifies gates
    ensures forall i :: 0 <= i < gates.Length ==> old(gates[i]).gate.startTime <= now && gates[i] == TickGate(old(gates[i]), now)
    ensures despawn == GateDespawns(old(gates[..]), now)
  {
    despawn := [];
    var i := 0;
    while i < gates.Length
      invariant 0 <= i <= gates.Length
      invariant forall k :: 0 <= k < i ==> old(gates[k]).gate.startTime <= now && gates[k] == TickGate(old(gates[k]), now)
      invariant forall k :: i <= k < gates.Length ==> gates[k] == old(gates[k])
      invariant despawn == GateDespawns(old(gates[..])[..i], now)
    {
      var dt := now - gates[i].gate.startTime;
      if dt >= CLOSE_AFTER {
        despawn := despawn + [gates[i].entity];
      }
      if dt >= OPEN_AFTER {
        gates[i] := gates[i].(gate := gates[i].gate.(isOpen := true));
      }
      assert old(gates[..])[..i + 1][..i] == old(gates[..])[..i];
      i := i + 1;
    }
    assert old(gates[..])[..gates.Length] == old(gates[..]);
  }

  /** The timer never closes a gate, and only changes the open flag. */
  lemma TickNeverCloses(g: GateRow, now: nat)
    requires g.gate.startTime <= now
    ensures g.gate.isOpen ==> TickGate(g, now).gate.isOpen
    ensures TickGate(g, now).gate.isOpen <==> g.gate.isOpen || now - g.gate.startTime >= OPEN_AFTER
    ensures TickGate(g, now).gate.(isOpen := g.gate.isOpen) == g.gate && TickGate(g, now).entity == g.entity
  {
  }

  /** A gate is despawned at `now` exactly when `CLOSE_AFTER` has elapsed
      since it started, and any gate despawned in a pass is open after that
      pass. */
  lemma {:induction false} DespawnedGatesAreOpen(gates: seq<GateRow>, now: nat, e: Entity)
    requires forall i :: 0 <= i < |gates| ==> gates[i].gate.startTime <= now
    ensures e in GateDespawns(gates, now) <==>
              exists i :: 0 <= i < |gates| && gates[i].entity == e && now - gates[i].gate.startTime >= CLOSE_AFTER
    ensures forall i :: 0 <= i < |gates| && now - gates[i].gate.startTime >= CLOSE_AFTER ==>
              TickGate(gates[i], now).gate.isOpen
  {
    if gates != [] {
      var n := |gates| - 1;
      DespawnedGatesAreOpen(gates[..n], now, e);
      if exists i :: 0 <= i < n && gates[..n][i].entity == e && now - gates[..n][i].gate.startTime >= CLOSE_AFTER {
        var i :| 0 <= i < n && gates[..n][i].entity == e && now - gates[..n][i].gate.startTime >= CLOSE_AFTER;
        assert gates[i] == gates[..n][i];
      }
      if exists i :: 0 <= i < |gates| && gates[i].entity == e && now - gates[i].gate.startTime >= CLOSE_AFTER {
        var i :| 0 <= i < |gates| && gates[i].entity == e && now - gates[i].gate.startTime >= CLOSE_AFTER;
        if i < n {
          assert gates[..n][i] == gates[i];
        }
      }
    }
  }

  /** The gate after timer passes at each of `times`, in order. */
  function TickedAt(g: GateRow, times: seq<nat>): (r: GateRow)
    requires forall k :: 0 <= k < |times| ==> g.gate.startTime <= times[k]
    ensures r.gate.startTime == g.gate.startTime && r.entity == g.entity
  {
    if times == [] then g
    else
      var before := TickedAt(g, times[..|times| - 1]);
      TickGate(before, times[|times| - 1])
  }

  /** Over any run of timer passes, a gate is open exactly when it started
      open or one of the passes came at least `OPEN_AFTER` after its start:
      once open it stays open. */
  lemma {:induction false} OpenAfterPasses(g: GateRow, times: seq<nat>)
    requires forall k :: 0 <= k < |times| ==> g.gate.startTime <= times[k]
    ensures TickedAt(g, times).gate.isOpen <==>
              g.gate.isOpen || exists k :: 0 <= k < |times| && times[k] - g.gate.startTime >= OPEN_AFTER
  {
    if times != [] {
      var n := |times| - 1;
      OpenAfterPasses(g, times[..n]);
      if exists k :: 0 <= k < n && times[..n][k] - g.gate.startTime >= OPEN_AFTER {
        var k :| 0 <= k < n && times[..n][k] - g.gate.startTime >= OPEN_AFTER;
        assert times[k] == times[..n][k];
      }
      if exists k :: 0 <= k < |times| && times[k] - g.gate.startTime >= OPEN_AFTER {
        var k :| 0 <= k < |times| && times[k] - g.gate.startTime >= OPEN_AFTER;
        if k < n {
          assert times[..n][k] == times[k];
        }
      }
    }
  }

  /** One row of the output query. */
  datatype OutputRow = OutputRow(entity: Entity, startTime: nat)

  /** The output markers despawned at `now`, in query order. */
  function OutputDespawns(outputs: seq<OutputRow>, now: nat): seq<Entity> {
    if outputs == [] then []
    else
      var last := outputs[|outputs| - 1];
      OutputDespawns(outputs[..|outputs| - 1], now) +
        (if last.startTime + OUTPUT_LIFETIME <= now then [last.entity] else [])
  }

  /** `small_hypergate_output`: despawns every output marker that has
      lived `OUTPUT_LIFETIME` or more, in query order. */
  method SmallHypergateOutput(outputs: seq<OutputRow>, now: nat) returns (despawn: seq<Entity>)
    requires forall i :: 0 <= i < |outputs| ==> outputs[i].startTime <= now
    ensures despawn == OutputDespawns(outputs, now)
    ensures forall e :: e in despawn <==>
              exists i :: 0 <= i < |outputs| && outputs[i].entity == e && now - outputs[i].startTime >= OUTPUT_LIFETIME
  {
    despawn := [];
    for i := 0 to |outputs|
      invariant despawn == OutputDespawns(outputs[..i], now)
    {
      var dt := now - outputs[i].startTime;
      if dt >= OUTPUT_LIFETIME {
        despawn := despawn + [outputs[i].entity];
      }
      assert outputs[..i + 1][..i] == outputs[..i];
    }
    assert outputs[..|outputs|] == outputs;
    forall e: Entity {
      OutputDespawnedIff(outputs, now, e);
    }
  }

  lemma {:induction false} OutputDespawnedIff(outputs: seq<OutputRow>, now: nat, e: Entity)
    requires forall i :: 0 <= i < |outputs| ==> outputs[i].startTime <= now
    ensures e in OutputDespawns(outputs, now) <==>
              exists i :: 0 <= i < |outputs| && outputs[i].entity == e && now - outputs[i].startTime >= OUTPUT_LIFETIME
  {
    if outputs != [] {
      var n := |outputs| - 1;
      OutputDespawnedIff(outputs[..n], now, e);
      if exists i :: 0 <= i < n && outputs[..n][i].entity == e && now - outputs[..n][i].startTime >= OUTPUT_LIFETIME {
        var i :| 0 <= i < n && outputs[..n][i].entity == e && now - outputs[..n][i].startTime >= OUTPUT_LIFETIME;
        assert outputs[i] == outputs[..n][i];
      }
      if exists i :: 0 <= i < |outputs| && outputs[i].entity == e && now - outputs[i].startTime >= OUTPUT_LIFETIME {
        var i :| 0 <= i < |outputs| && outputs[i].entity == e && now - outputs[i].startTime >= OUTPUT_LIFETIME;
        if i < n {
          assert outputs[..n][i] == outputs[i];
        }
      }
    }
  }
}
