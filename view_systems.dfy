/** The systems of feather/common/src/view.rs that keep players' views up to
    date: `update_player_views` (a player crossed into another chunk) and
    `update_view_on_join` (a player just joined). Both scan the players first,
    buffer `(player, ViewUpdateEvent)` pairs, and only then insert the events,
    stopping at the first insertion that fails. */
module ViewSystems {
  import opened Base
  import opened ViewRegion

  /** A row of the player query: the entity and its components. `joined`
      says whether the entity carries a `PlayerJoinEvent` this tick. */
  datatype Player = Player(
    entity: EntityId,
    position: Position,
    name: string,
    world: WorldId,
    dimension: Dimension,
    view: View,
    joined: bool)

  /** `ViewUpdateEvent`: the view before and the view after. */
  datatype ViewUpdateEvent = ViewUpdateEvent(oldView: View, newView: View)

  /** A buffered event and the player it is to be attached to. */
  datatype PendingEvent = PendingEvent(player: EntityId, event: ViewUpdateEvent)

  /** The chunks a consumer of the event starts tracking. */
  function ChunksToLoad(e: ViewUpdateEvent): set<ChunkPos>
  {
    e.newView.Difference(e.oldView)
  }

  /** The chunks a consumer of the event stops tracking. */
  function ChunksToUnload(e: ViewUpdateEvent): set<ChunkPos>
  {
    e.oldView.Difference(e.newView)
  }

  // ---------------------------------------------------------------------
  // update_player_views, as functions of the players before the scan
  // ---------------------------------------------------------------------

  /** The player's chunk differs from its view's center. */
  predicate Moved(p: Player, chunkOf: Position -> ChunkPos)
  {
    chunkOf(p.position) != p.view.center
  }

  /** The view that replaces a moved player's view. */
  function MovedView(p: Player, chunkOf: Position -> ChunkPos): View
  {
    New(chunkOf(p.position), p.view.viewDistance, p.world, p.dimension)
  }

  /** The row after the scan has looked at it. */
  function Rescanned(p: Player, chunkOf: Position -> ChunkPos): Player
  {
    if Moved(p, chunkOf) then p.(view := MovedView(p, chunkOf)) else p
  }

  /** The event buffered for a moved player. */
  function MoveEvent(p: Player, chunkOf: Position -> ChunkPos): PendingEvent
  {
    PendingEvent(p.entity, ViewUpdateEvent(p.view, MovedView(p, chunkOf)))
  }

  /** The events buffered by the scan over `ps`, in scan order. */
  function MoveEvents(ps: seq<Player>, chunkOf: Position -> ChunkPos): seq<PendingEvent>
  {
    if ps == [] then []
    else
      var last := ps[|ps| - 1];
      MoveEvents(ps[..|ps| - 1], chunkOf) + (if Moved(last, chunkOf) then [MoveEvent(last, chunkOf)] else [])
  }

  /** The positions of the moved players, in ascending order (an independent
      description of which rows the scan reports). */
  function MovedIndices(ps: seq<Player>, chunkOf: Position -> ChunkPos): (r: seq<nat>)
    ensures forall k :: 0 <= k < |r| ==> r[k] < |ps| && Moved(ps[r[k]], chunkOf)
    ensures forall i :: 0 <= i < |ps| && Moved(ps[i], chunkOf) ==> i in r
    ensures forall k, l :: 0 <= k < l < |r| ==> r[k] < r[l]
  {
    if ps == [] then []
    else
      var n := |ps| - 1;
      var front := MovedIndices(ps[..n], chunkOf);
      front + (if Moved(ps[n], chunkOf) then [n] else [])
  }

  // ---------------------------------------------------------------------
  // update_view_on_join, as a function of the players
  // ---------------------------------------------------------------------

  /** The event buffered for a joined player: from the empty view of its
      world and dimension to its current view. */
  function JoinEvent(p: Player): PendingEvent
  {
    PendingEvent(p.entity, ViewUpdateEvent(Empty(p.world, p.dimension), p.view))
  }

  function JoinEvents(ps: seq<Player>): seq<PendingEvent>
  {
    if ps == [] then []
    else
      var last := ps[|ps| - 1];
      JoinEvents(ps[..|ps| - 1]) + (if last.joined then [JoinEvent(last)] else [])
  }

  function JoinedIndices(ps: seq<Player>): (r: seq<nat>)
    ensures forall k :: 0 <= k < |r| ==> r[k] < |ps| && ps[r[k]].joined
    ensures forall i :: 0 <= i < |ps| && ps[i].joined ==> i in r
    ensures forall k, l :: 0 <= k < l < |r| ==> r[k] < r[l]
  {
    if ps == [] then []
    else
      var n := |ps| - 1;
      JoinedIndices(ps[..n]) + (if ps[n].joined then [n] else [])
  }

  // ---------------------------------------------------------------------
  // Emission: stop at the first insertion that fails
  // ---------------------------------------------------------------------

  /** How many buffered events are inserted before the first one addressed to
      an entity that no longer exists. */
  function Delivered(pending: seq<PendingEvent>, live: set<EntityId>): (n: nat)
    ensures n <= |pending|
    ensures forall k :: 0 <= k < n ==> pending[k].player in live
    ensures n < |pending| ==> pending[n].player !in live
  {
    if pending == [] || pending[0].player !in live then 0
    else 1 + Delivered(pending[1..], live)
  }

  /** What the emission loop returns: `Ok` when every event was inserted,
      otherwise the error of the first failing insertion. */
  function EmitResult(pending: seq<PendingEvent>, live: set<EntityId>): SysResult
  {
    var n := Delivered(pending, live);
    if n == |pending| then Ok else Err(EntityDead(pending[n].player))
  }

  // ---------------------------------------------------------------------
  // The game state the systems run against
  // ---------------------------------------------------------------------

  /** The parts of `Game` these systems use: the player rows (whose `View`
      components are updated in place), the entities that still exist, and the
      entity events inserted so far. */
  class Game {
    const players: array<Player>
    var live: set<EntityId>
    var entityEvents: seq<PendingEvent>

    constructor (players: array<Player>, live: set<EntityId>)
      ensures this.players == players && this.live == live && entityEvents == []
    {
      this.players := players;
      this.live := live;
      this.entityEvents := [];
    }

    /** `insert_entity_event`: fails, inserting nothing, when the entity no
        longer exists. */
    method InsertEntityEvent(player: EntityId, event: ViewUpdateEvent) returns (r: SysResult)
      modifies this`entityEvents
      ensures r == if player in live then Ok else Err(EntityDead(player))
      ensures entityEvents == if player in live then old(entityEvents) + [PendingEvent(player, event)] else old(entityEvents)
    {
      if player in live {
        entityEvents := entityEvents + [PendingEvent(player, event)];
        r := Ok;
      } else {
        r := Err(EntityDead(player));
      }
    }

    /** The second loop of both systems: insert the buffered events in order,
        returning at the first failure (`?`). */
    method EmitEvents(pending: seq<PendingEvent>) returns (r: SysResult)
      modifies this`entityEvents
      ensures entityEvents == old(entityEvents) + pending[..Delivered(pending, live)]
      ensures r == EmitResult(pending, live)
    {
      var i := 0;
      while i < |pending|
        invariant 0 <= i <= |pending|
        invariant forall k :: 0 <= k < i ==> pending[k].player in live
        invariant entityEvents == old(entityEvents) + pending[..i]
      {
        r := InsertEntityEvent(pending[i].player, pending[i].event);
        if r.Err? {
          assert Delivered(pending, live) == i;
          return;
        }
        assert pending[..i + 1] == pending[..i] + [pending[i]];
        i := i + 1;
      }
      assert Delivered(pending, live) == |pending|;
      assert pending[..i] == pending;
      r := Ok;
    }

    /** `update_player_views`: every player whose chunk differs from its view's
        center gets the view recentered on that chunk (same distance, its own
        world and dimension); one event per such player is buffered in scan
        order and emitted after the scan. Views are replaced whether or not
        emission succeeds. */
    method UpdatePlayerViews(chunkOf: Position -> ChunkPos) returns (r: SysResult)
      modifies players, this`entityEvents
      ensures forall k :: 0 <= k < players.Length ==> players[k] == Rescanned(old(players[k]), chunkOf)
      ensures var pending := MoveEvents(old(players[..]), chunkOf);
        entityEvents == old(entityEvents) + pending[..Delivered(pending, live)] &&
        r == EmitResult(pending, live)
    {
      ghost var initial := players[..];
      var events: seq<PendingEvent> := [];
      var i := 0;
      while i < players.Length
        invariant 0 <= i <= players.Length
        invariant forall k :: 0 <= k < i ==> players[k] == Rescanned(initial[k], chunkOf)
        invariant forall k :: i <= k < players.Length ==> players[k] == initial[k]
        invariant events == MoveEvents(initial[..i], chunkOf)
        invariant entityEvents == old(entityEvents)
      {
        assert initial[..i + 1][..i] == initial[..i];
        var p := players[i];
        var chunk := chunkOf(p.position);
        if chunk != p.view.center {
          var oldView := p.view;
          var newView := New(chunk, oldView.viewDistance, p.world, p.dimension);
          events := events + [PendingEvent(p.entity, ViewUpdateEvent(oldView, newView))];
          players[i] := p.(view := newView);
        }
        i := i + 1;
      }
      assert initial[..i] == initial;
      r := EmitEvents(events);
    }

    /** `update_view_on_join`: for every player carrying the join marker, an
        event from the empty view of its world and dimension to its current
        view is buffered and then emitted. No view changes. */
    method UpdateViewOnJoin() returns (r: SysResult)
      modifies this`entityEvents
      ensures var pending := JoinEvents(players[..]);
        entityEvents == old(entityEvents) + pending[..Delivered(pending, live)] &&
        r == EmitResult(pending, live)
    {
      var events: seq<PendingEvent> := [];
      var i := 0;
      while i < players.Length
        invariant 0 <= i <= players.Length
        invariant events == JoinEvents(players[..i])
        invariant entityEvents == old(entityEvents)
      {
        assert players[..i + 1][..i] == players[..i];
        var p := players[i];
        if p.joined {
          events := events + [PendingEvent(p.entity, ViewUpdateEvent(Empty(p.world, p.dimension), p.view))];
        }
        i := i + 1;
      }
      assert players[..i] == players[..];
      r := EmitEvents(events);
    }
  }

  // ---------------------------------------------------------------------
  // Properties of the view systems
  // ---------------------------------------------------------------------

  /** After the scan a player's view is centered on its chunk, keeps its
      distance, and lives in the player's world and dimension when it was
      replaced; an unmoved player is untouched. */
  lemma RescannedView(p: Player, chunkOf: Position -> ChunkPos)
    ensures Rescanned(p, chunkOf).view.center == chunkOf(p.position)
    ensures Rescanned(p, chunkOf).view.viewDistance == p.view.viewDistance
    ensures Moved(p, chunkOf) ==>
      Rescanned(p, chunkOf).view.world == p.world && Rescanned(p, chunkOf).view.dimension == p.dimension
    ensures !Moved(p, chunkOf) ==> Rescanned(p, chunkOf) == p
    ensures Rescanned(p, chunkOf).entity == p.entity && Rescanned(p, chunkOf).position == p.position
  {
  }

  /** A second scan in the same tick changes nothing and buffers nothing. */
  lemma {:induction false} RescanIdempotent(ps: seq<Player>, chunkOf: Position -> ChunkPos)
    ensures MoveEvents(seq(|ps|, i requires 0 <= i < |ps| => Rescanned(ps[i], chunkOf)), chunkOf) == []
    ensures forall i :: 0 <= i < |ps| ==> Rescanned(Rescanned(ps[i], chunkOf), chunkOf) == Rescanned(ps[i], chunkOf)
  {
    var qs := seq(|ps|, i requires 0 <= i < |ps| => Rescanned(ps[i], chunkOf));
    NoMovedNoEvents(qs, chunkOf);
  }

  lemma {:induction false} NoMovedNoEvents(ps: seq<Player>, chunkOf: Position -> ChunkPos)
    requires forall i :: 0 <= i < |ps| ==> ps[i].view.center == chunkOf(ps[i].position)
    ensures MoveEvents(ps, chunkOf) == []
  {
    if ps != [] {
      NoMovedNoEvents(ps[..|ps| - 1], chunkOf);
    }
  }

  /** Exactly one event per moved player, in scan order: the k-th event
      belongs to the k-th moved player and carries its old and its new view. */
  lemma {:induction false} MoveEventsInScanOrder(ps: seq<Player>, chunkOf: Position -> ChunkPos)
    ensures |MoveEvents(ps, chunkOf)| == |MovedIndices(ps, chunkOf)|
    ensures forall k :: 0 <= k < |MoveEvents(ps, chunkOf)| ==>
      MoveEvents(ps, chunkOf)[k] == MoveEvent(ps[MovedIndices(ps, chunkOf)[k]], chunkOf)
  {
    if ps != [] {
      MoveEventsInScanOrder(ps[..|ps| - 1], chunkOf);
    }
  }

  /** Every buffered move event really describes a move: its new view is
      centered on the player's chunk, differs in center from the old view,
      and keeps the old distance. */
  lemma {:induction false} MoveEventsAreMoves(ps: seq<Player>, chunkOf: Position -> ChunkPos, k: nat)
    requires k < |MoveEvents(ps, chunkOf)|
    ensures var e := MoveEvents(ps, chunkOf)[k].event;
      e.newView.center != e.oldView.center &&
      e.newView.viewDistance == e.oldView.viewDistance
  {
    MoveEventsInScanOrder(ps, chunkOf);
  }

  /** Exactly one event per joined player, in scan order, from the empty view
      of its world and dimension to its current view. */
  lemma {:induction false} JoinEventsInScanOrder(ps: seq<Player>)
    ensures |JoinEvents(ps)| == |JoinedIndices(ps)|
    ensures forall k :: 0 <= k < |JoinEvents(ps)| ==> JoinEvents(ps)[k] == JoinEvent(ps[JoinedIndices(ps)[k]])
  {
    if ps != [] {
      JoinEventsInScanOrder(ps[..|ps| - 1]);
    }
  }

  /** A join event makes its consumer load the whole current view and unload
      nothing, whether or not the view's world and dimension match the
      player's components. */
  lemma JoinEventLoadsWholeView(p: Player)
    ensures ChunksToLoad(JoinEvent(p).event) == ChunkSet(p.view.Iter())
    ensures ChunksToUnload(JoinEvent(p).event) == {}
  {
    var empty := Empty(p.world, p.dimension);
    if SameSpace(p.view, empty) {
      DifferenceWithEmpty(p.view);
    } else {
      DifferenceAcrossSpaces(p.view, empty);
    }
  }

  /** Emission inserts a prefix of the buffered events; it reports `Ok` exactly
      when every buffered event's player still exists, and otherwise names the
      first one that does not. */
  lemma EmitResultMeaning(pending: seq<PendingEvent>, live: set<EntityId>)
    ensures EmitResult(pending, live).Ok? <==> forall k :: 0 <= k < |pending| ==> pending[k].player in live
    ensures EmitResult(pending, live).Err? ==>
      exists n :: 0 <= n < |pending| && pending[n].player !in live &&
        EmitResult(pending, live) == Err(EntityDead(pending[n].player)) &&
        forall k :: 0 <= k < n ==> pending[k].player in live
  {
  }
}
