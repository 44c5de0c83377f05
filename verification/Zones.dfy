/** Rooms, exits and directions, and the insertion-ordered room maps the engine works on. */
module Zones {
  import opened Sums

  datatype Option<+T> = None | Some(value: T)

  /** Room ids are only ever compared for equality. */
  datatype RoomId = RoomId(name: string)

  /** Exit directions; every name outside the offset table is Named. */
  datatype Dir = North | South | East | West | Up | Down | Named(name: string)

  datatype Offset = Offset(dx: int, dy: int, dz: int)

  datatype Cell = Cell(x: int, y: int)

  datatype Pos = Pos(x: int, y: int, z: int) {
    function AtCell(): Cell { Cell(x, y) }
  }

  function At(c: Cell, z: int): Pos { Pos(c.x, c.y, z) }

  /** The offset table; unknown directions have no entry. */
  function OffsetOf(d: Dir): Option<Offset> {
    match d
    case North => Some(Offset(0, -1, 0))
    case South => Some(Offset(0, 1, 0))
    case East => Some(Offset(1, 0, 0))
    case West => Some(Offset(-1, 0, 0))
    case Up => Some(Offset(0, 0, 1))
    case Down => Some(Offset(0, 0, -1))
    case Named(_) => None
  }

  predicate Cardinal(d: Dir) {
    d.North? || d.South? || d.East? || d.West?
  }

  predicate Known(d: Dir) {
    !d.Named?
  }

  /** The offset of a direction that has one. */
  function Off(d: Dir): Offset
    requires Known(d)
  {
    OffsetOf(d).value
  }

  function Plus(p: Pos, o: Offset): Pos { Pos(p.x + o.dx, p.y + o.dy, p.z + o.dz) }

  /** The cell one step on, y growing to the south. */
  function Neighbour(c: Cell, d: Dir): Cell
    requires Cardinal(d)
  {
    match d
    case North => Cell(c.x, c.y - 1)
    case South => Cell(c.x, c.y + 1)
    case East => Cell(c.x + 1, c.y)
    case West => Cell(c.x - 1, c.y)
  }

  datatype Exit = Exit(dir: Dir, target: RoomId)

  datatype Edge = Edge(from: RoomId, dir: Dir, to: RoomId)

  /** The room graph: `ids` is the iteration order of the room map, and each exit list
      is the iteration order of that room's direction map. */
  datatype Zone = Zone(ids: seq<RoomId>, exits: map<RoomId, seq<Exit>>) {
    ghost predicate Valid() {
      && NoDup(ids)
      && (forall id :: id in ids <==> id in exits)
    }

    /** The exits of a room in their order, none for an unknown room. */
    function ExitsOf(id: RoomId): seq<Exit> {
      if id in exits then exits[id] else []
    }

    /** The cardinal exits of a room as edges. */
    function Out(id: RoomId): seq<Edge> {
      OutOf(id, ExitsOf(id))
    }

    /** The reverse adjacency list of a room, in the order it is built. */
    function In(id: RoomId): seq<Edge> {
      InFrom(ids, id)
    }

    function InFrom(sources: seq<RoomId>, id: RoomId): seq<Edge> {
      if sources == [] then [] else Into(Out(sources[0]), id) + InFrom(sources[1..], id)
    }

    lemma {:induction false} InFromMembers(sources: seq<RoomId>, id: RoomId)
      ensures forall e :: e in InFrom(sources, id) <==> e.to == id && e.from in sources && e in Out(e.from)
    {
      if sources != [] {
        InFromMembers(sources[1..], id);
        OutMembers(sources[0], ExitsOf(sources[0]));
        IntoMembers(Out(sources[0]), id);
        forall e ensures e in InFrom(sources, id) <==> e.to == id && e.from in sources && e in Out(e.from) {
          OutMembers(e.from, ExitsOf(e.from));
          assert e.from in sources <==> e.from == sources[0] || e.from in sources[1..];
        }
      }
    }
  }

  function OutOf(id: RoomId, exits: seq<Exit>): seq<Edge> {
    if exits == [] then []
    else (if Cardinal(exits[0].dir) then [Edge(id, exits[0].dir, exits[0].target)] else []) + OutOf(id, exits[1..])
  }

  function Into(edges: seq<Edge>, id: RoomId): seq<Edge> {
    if edges == [] then []
    else (if edges[0].to == id then [edges[0]] else []) + Into(edges[1..], id)
  }

  lemma {:induction false} OutMembers(id: RoomId, exits: seq<Exit>)
    ensures forall e :: e in OutOf(id, exits) <==> e.from == id && Cardinal(e.dir) && Exit(e.dir, e.to) in exits
  {
    if exits != [] {
      OutMembers(id, exits[1..]);
      forall e ensures e in OutOf(id, exits) <==> e.from == id && Cardinal(e.dir) && Exit(e.dir, e.to) in exits {
        assert Exit(e.dir, e.to) in exits <==> Exit(e.dir, e.to) == exits[0] || Exit(e.dir, e.to) in exits[1..];
      }
    }
  }

  lemma {:induction false} IntoMembers(edges: seq<Edge>, id: RoomId)
    ensures forall e :: e in Into(edges, id) <==> e in edges && e.to == id
  {
    if edges != [] {
      IntoMembers(edges[1..], id);
    }
  }

  /** The cardinal exits of the listed rooms, in order. */
  function AllOut(zone: Zone, ids: seq<RoomId>): seq<Edge> {
    if ids == [] then [] else zone.Out(ids[0]) + AllOut(zone, ids[1..])
  }

  lemma {:induction false} AllOutMembers(zone: Zone, ids: seq<RoomId>)
    ensures forall e :: e in AllOut(zone, ids) <==> e.from in ids && e in zone.Out(e.from)
  {
    if ids != [] {
      AllOutMembers(zone, ids[1..]);
      OutMembers(ids[0], zone.ExitsOf(ids[0]));
      forall e ensures e in AllOut(zone, ids) <==> e.from in ids && e in zone.Out(e.from) {
        assert e.from in ids <==> e.from == ids[0] || e.from in ids[1..];
      }
    }
  }

  lemma OutFrom(zone: Zone, id: RoomId, e: Edge)
    requires e in zone.Out(id)
    ensures e.from == id
  {
    OutMembers(id, zone.ExitsOf(id));
  }

  /** A JavaScript Map from room to position: `order` is its iteration order. */
  datatype Layout = Layout(order: seq<RoomId>, at: map<RoomId, Pos>) {
    ghost predicate Valid() {
      && NoDup(order)
      && (forall id :: id in order <==> id in at)
    }

    function Put(id: RoomId, p: Pos): Layout {
      Layout(if id in at then order else order + [id], at[id := p])
    }

    predicate On(id: RoomId, z: int) {
      id in at && at[id].z == z
    }
  }

  const EmptyLayout := Layout([], map[])
}
