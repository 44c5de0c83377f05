/** Bags and pouches: adding items to a container and taking them out again. */
module Containers {
  import opened Sums
  import opened Zones

  datatype ItemType = Weapon | Armour | Consumable | Material | Tool | Key | Container

  datatype SlotEntry = SlotEntry(definitionId: string, quantity: int, durability: Option<int>)

  datatype ContainerProperties = ContainerProperties(maxSlots: int, maxWeight: Option<int>, allowedItemTypes: Option<seq<ItemType>>)

  /** Weights are whole numbers of some small unit. */
  datatype ItemDefinition = ItemDefinition(itemType: ItemType, weight: int, containerProperties: Option<ContainerProperties>)

  type Definitions = map<string, ItemDefinition>

  datatype ItemInstance = ItemInstance(definitionId: string, contents: Option<seq<SlotEntry>>)

  datatype Error = NotAContainer | TypeRefused | Nested | Full | TooHeavy(weight: int) | NoContents | NotFound

  datatype Result<T> = Ok(value: T) | Refused(error: Error)

  function Contents(container: ItemInstance): seq<SlotEntry> {
    if container.contents.Some? then container.contents.value else []
  }

  // ---- Weight, slots and counts ----

  /** A value per piece, times the quantity. */
  function Times(each: string -> int): SlotEntry -> int {
    (e: SlotEntry) => each(e.definitionId) * e.quantity
  }

  function WeightOf(defs: Definitions): string -> int {
    (id: string) => if id in defs then defs[id].weight else 0
  }

  function OneOf(id: string): string -> int {
    (other: string) => if other == id then 1 else 0
  }

  /** The weight of the contents; entries without a definition weigh nothing. */
  function Weight(contents: seq<SlotEntry>, defs: Definitions): int {
    Sum(contents, Times(WeightOf(defs)))
  }

  method ContentsWeight(contents: seq<SlotEntry>, defs: Definitions) returns (total: int)
    ensures total == Weight(contents, defs)
  {
    total := 0;
    for i := 0 to |contents|
      invariant total == Weight(contents[..i], defs)
    {
      TakeStep(contents, i);
      SumAppend(contents[..i], [contents[i]], Times(WeightOf(defs)));
      var e := contents[i];
      if e.definitionId in defs { total := total + defs[e.definitionId].weight * e.quantity; }
    }
    TakeAll(contents);
  }

  method GetContainerContentsWeight(container: ItemInstance, defs: Definitions) returns (total: int)
    ensures total == Weight(Contents(container), defs)
  {
    if container.contents.None? { return 0; }
    total := ContentsWeight(container.contents.value, defs);
  }

  /** How many of an item the contents hold. */
  function CountOf(contents: seq<SlotEntry>, id: string): int {
    Sum(contents, Times(OneOf(id)))
  }

  predicate Has(contents: seq<SlotEntry>, id: string) {
    exists i :: 0 <= i < |contents| && contents[i].definitionId == id
  }

  ghost predicate DistinctIds(contents: seq<SlotEntry>) {
    forall i, j :: 0 <= i < j < |contents| ==> contents[i].definitionId != contents[j].definitionId
  }

  ghost predicate Positive(contents: seq<SlotEntry>) {
    forall e :: e in contents ==> e.quantity > 0
  }

  /** Everything a container promises of its contents. */
  ghost predicate Valid(contents: seq<SlotEntry>, props: ContainerProperties, defs: Definitions) {
    && DistinctIds(contents) && Positive(contents)
    && (contents != [] ==> |contents| <= props.maxSlots)
    && (props.maxWeight.Some? && contents != [] ==> Weight(contents, defs) <= props.maxWeight.value)
  }

  ghost predicate Weighable(defs: Definitions) {
    forall id :: id in defs ==> defs[id].weight >= 0
  }

  // ---- The new contents ----

  method FindIndex(contents: seq<SlotEntry>, id: string) returns (index: Option<nat>)
    ensures index.Some? ==> index.value < |contents| && contents[index.value].definitionId == id
                            && !Has(contents[..index.value], id)
    ensures index.None? ==> !Has(contents, id)
  {
    for i := 0 to |contents|
      invariant forall j :: 0 <= j < i ==> contents[j].definitionId != id
    {
      if contents[i].definitionId == id { return Some(i); }
    }
    index := None;
  }

  /** Stack onto the first entry of the item, or append a new one. */
  function Stacked(contents: seq<SlotEntry>, item: SlotEntry): seq<SlotEntry> {
    if contents == [] then [item]
    else if contents[0].definitionId == item.definitionId then
      [contents[0].(quantity := contents[0].quantity + item.quantity)] + contents[1..]
    else [contents[0]] + Stacked(contents[1..], item)
  }

  /** The first entry of the item with the quantity taken out; a whole stack goes away. */
  function Without(contents: seq<SlotEntry>, id: string, quantity: int): seq<SlotEntry> {
    if contents == [] then []
    else if contents[0].definitionId == id then
      (if quantity >= contents[0].quantity then [] else [contents[0].(quantity := contents[0].quantity - quantity)]) + contents[1..]
    else [contents[0]] + Without(contents[1..], id, quantity)
  }

  /** The first entry of the item. */
  function Entry(contents: seq<SlotEntry>, id: string): (e: SlotEntry)
    requires Has(contents, id)
    ensures e in contents && e.definitionId == id
  {
    if contents[0].definitionId == id then contents[0] else Entry(contents[1..], id)
  }

  lemma PrefixTail(contents: seq<SlotEntry>, i: nat, id: string)
    requires 0 < i <= |contents| && !Has(contents[..i], id)
    ensures !Has(contents[1..][..i - 1], id) && contents[0].definitionId != id
  {
    assert contents[..i][0] == contents[0];
    assert contents[1..][..i - 1] == contents[..i][1..];
  }

  lemma {:induction false} StackedAt(contents: seq<SlotEntry>, item: SlotEntry, i: nat)
    requires i < |contents| && contents[i].definitionId == item.definitionId && !Has(contents[..i], item.definitionId)
    ensures Stacked(contents, item) == contents[i := contents[i].(quantity := contents[i].quantity + item.quantity)]
  {
    if i > 0 {
      PrefixTail(contents, i, item.definitionId);
      StackedAt(contents[1..], item, i - 1);
    }
  }

  lemma {:induction false} StackedNew(contents: seq<SlotEntry>, item: SlotEntry)
    requires !Has(contents, item.definitionId)
    ensures Stacked(contents, item) == contents + [item]
  {
    if contents != [] {
      assert forall j :: 0 <= j < |contents| - 1 ==> contents[1..][j] == contents[j + 1];
      StackedNew(contents[1..], item);
    }
  }

  lemma {:induction false} EntryAt(contents: seq<SlotEntry>, id: string, i: nat)
    requires i < |contents| && contents[i].definitionId == id && !Has(contents[..i], id)
    ensures Has(contents, id) && Entry(contents, id) == contents[i]
  {
    if i > 0 {
      PrefixTail(contents, i, id);
      EntryAt(contents[1..], id, i - 1);
    }
  }

  /** The entries with the one at i changed, or gone. */
  function Reduced(contents: seq<SlotEntry>, i: nat, quantity: int): seq<SlotEntry>
    requires i < |contents|
  {
    if quantity >= contents[i].quantity then contents[..i] + contents[i + 1..]
    else contents[i := contents[i].(quantity := contents[i].quantity - quantity)]
  }

  lemma ReducedCons(e: SlotEntry, s: seq<SlotEntry>, i: nat, quantity: int)
    requires i < |s|
    ensures Reduced([e] + s, i + 1, quantity) == [e] + Reduced(s, i, quantity)
  {
    var t := [e] + s;
    if quantity >= s[i].quantity {
      assert t[..i + 1] == [e] + s[..i] && t[i + 2..] == s[i + 1..];
      assert ([e] + s[..i]) + s[i + 1..] == [e] + (s[..i] + s[i + 1..]);
    } else {
      var x := s[i].(quantity := s[i].quantity - quantity);
      assert t[i + 1 := x] == [e] + s[i := x];
    }
  }

  lemma {:induction false} WithoutAt(contents: seq<SlotEntry>, id: string, quantity: int, i: nat)
    requires i < |contents| && contents[i].definitionId == id && !Has(contents[..i], id)
    ensures Has(contents, id) && Entry(contents, id) == contents[i]
    ensures Without(contents, id, quantity) == Reduced(contents, i, quantity)
  {
    EntryAt(contents, id, i);
    if i > 0 {
      hide Has, Entry, Reduced;
      PrefixTail(contents, i, id);
      WithoutAt(contents[1..], id, quantity, i - 1);
      ReducedCons(contents[0], contents[1..], i - 1, quantity);
      assert contents == [contents[0]] + contents[1..];
    } else {
      hide Has, Entry;
      ReducedFirst(contents, quantity);
    }
  }

  lemma ReducedFirst(contents: seq<SlotEntry>, quantity: int)
    requires contents != []
    ensures Reduced(contents, 0, quantity) ==
      (if quantity >= contents[0].quantity then [] else [contents[0].(quantity := contents[0].quantity - quantity)]) + contents[1..]
  {
    if quantity < contents[0].quantity {
      var less := contents[0].(quantity := contents[0].quantity - quantity);
      assert contents[0 := less] == [less] + contents[1..];
    } else {
      assert contents[..0] + contents[1..] == [] + contents[1..];
    }
  }

  // ---- The two operations ----

  /** Why an item cannot be added, checked in this order. */
  function AddError(containerDef: ItemDefinition, contents: seq<SlotEntry>, item: SlotEntry, itemType: ItemType, defs: Definitions): Option<Error> {
    if containerDef.itemType != Container || containerDef.containerProperties.None? then Some(NotAContainer)
    else
      var props := containerDef.containerProperties.value;
      if props.allowedItemTypes.Some? && itemType !in props.allowedItemTypes.value then Some(TypeRefused)
      else if itemType == Container then Some(Nested)
      else if !Has(contents, item.definitionId) && |contents| >= props.maxSlots then Some(Full)
      else
        var weight := Weight(Stacked(contents, item), defs);
        if props.maxWeight.Some? && weight > props.maxWeight.value then Some(TooHeavy(weight)) else None
  }

  /** addItemToContainer. */
  method AddItemToContainer(container: ItemInstance, containerDef: ItemDefinition, item: SlotEntry, itemDef: ItemDefinition, defs: Definitions)
    returns (result: Result<ItemInstance>)
    ensures var error := AddError(containerDef, Contents(container), item, itemDef.itemType, defs);
            result == if error.Some? then Refused(error.value)
                      else Ok(container.(contents := Some(Stacked(Contents(container), item))))
  {
    if containerDef.itemType != Container || containerDef.containerProperties.None? { return Refused(NotAContainer); }
    var props := containerDef.containerProperties.value;
    var contents := Contents(container);
    if props.allowedItemTypes.Some? && itemDef.itemType !in props.allowedItemTypes.value { return Refused(TypeRefused); }
    if itemDef.itemType == Container { return Refused(Nested); }
    var existing := FindIndex(contents, item.definitionId);
    ghost var start := contents;
    if existing.Some? {
      StackedAt(start, item, existing.value);
      var e := contents[existing.value];
      contents := contents[existing.value := e.(quantity := e.quantity + item.quantity)];
    } else {
      if |contents| >= props.maxSlots { return Refused(Full); }
      StackedNew(start, item);
      contents := contents + [item];
    }
    if props.maxWeight.Some? {
      var contentsWeight := ContentsWeight(contents, defs);
      if contentsWeight > props.maxWeight.value { return Refused(TooHeavy(contentsWeight)); }
    }
    result := Ok(container.(contents := Some(contents)));
  }

  /** What a removal hands out: the whole stack, or part of it. */
  function RemovedEntry(contents: seq<SlotEntry>, id: string, quantity: int): SlotEntry
    requires Has(contents, id)
  {
    var e := Entry(contents, id);
    if quantity >= e.quantity then e else SlotEntry(id, quantity, e.durability)
  }

  datatype Removal = Removal(updated: ItemInstance, removed: SlotEntry)

  /** removeItemFromContainer. */
  method RemoveItemFromContainer(container: ItemInstance, id: string, quantity: int) returns (result: Result<Removal>)
    ensures container.contents.None? ==> result == Refused(NoContents)
    ensures container.contents.Some? && !Has(container.contents.value, id) ==> result == Refused(NotFound)
    ensures container.contents.Some? && Has(container.contents.value, id) ==>
      var contents := container.contents.value;
      result == Ok(Removal(container.(contents := Some(Without(contents, id, quantity))), RemovedEntry(contents, id, quantity)))
  {
    if container.contents.None? { return Refused(NoContents); }
    var contents := container.contents.value;
    var index := FindIndex(contents, id);
    if index.None? { return Refused(NotFound); }
    var i := index.value;
    WithoutAt(contents, id, quantity, i);
    var entry := contents[i];
    if quantity >= entry.quantity {
      return Ok(Removal(container.(contents := Some(contents[..i] + contents[i + 1..])), entry));
    }
    contents := contents[i := entry.(quantity := entry.quantity - quantity)];
    result := Ok(Removal(container.(contents := Some(contents)), SlotEntry(id, quantity, entry.durability)));
  }

  // ---- What the operations do to counts and weight ----

  lemma TimesAdd(each: string -> int, e: SlotEntry, q: int)
    ensures Times(each)(e.(quantity := e.quantity + q)) == Times(each)(e) + each(e.definitionId) * q
  {
    assert each(e.definitionId) * (e.quantity + q) == each(e.definitionId) * e.quantity + each(e.definitionId) * q;
  }

  /** Adding raises every such total by exactly what was added. */
  lemma {:induction false} StackedSum(contents: seq<SlotEntry>, item: SlotEntry, each: string -> int)
    ensures Sum(Stacked(contents, item), Times(each)) == Sum(contents, Times(each)) + each(item.definitionId) * item.quantity
  {
    if contents != [] {
      if contents[0].definitionId == item.definitionId {
        var more := contents[0].(quantity := contents[0].quantity + item.quantity);
        TimesAdd(each, contents[0], item.quantity);
        assert ([more] + contents[1..])[1..] == contents[1..];
      } else {
        StackedSum(contents[1..], item, each);
        assert ([contents[0]] + Stacked(contents[1..], item))[1..] == Stacked(contents[1..], item);
      }
    } else {
      assert [item][1..] == [];
    }
  }

  /** Taking out lowers it by exactly what was taken: the quantity, or the whole stack if that is less. */
  lemma {:induction false} WithoutSum(contents: seq<SlotEntry>, id: string, quantity: int, each: string -> int)
    requires Has(contents, id)
    ensures var taken := if quantity >= Entry(contents, id).quantity then Entry(contents, id).quantity else quantity;
            Sum(Without(contents, id, quantity), Times(each)) == Sum(contents, Times(each)) - each(id) * taken
  {
    if contents[0].definitionId == id {
      if quantity < contents[0].quantity {
        var less := contents[0].(quantity := contents[0].quantity - quantity);
        TimesAdd(each, contents[0], 0 - quantity);
        assert each(id) * (0 - quantity) == 0 - each(id) * quantity;
        assert ([less] + contents[1..])[1..] == contents[1..];
      } else {
        assert Without(contents, id, quantity) == contents[1..];
      }
    } else {
      assert Has(contents[1..], id) by {
        var i :| 0 <= i < |contents| && contents[i].definitionId == id;
        assert contents[1..][i - 1] == contents[i];
      }
      WithoutSum(contents[1..], id, quantity, each);
      assert ([contents[0]] + Without(contents[1..], id, quantity))[1..] == Without(contents[1..], id, quantity);
    }
  }

  /** Exactly one count changes, by exactly what went in or came out, whatever was asked for. */
  lemma CountsExact(contents: seq<SlotEntry>, item: SlotEntry, id: string, quantity: int, other: string)
    ensures CountOf(Stacked(contents, item), other) == CountOf(contents, other) + if other == item.definitionId then item.quantity else 0
    ensures Has(contents, id) ==>
      CountOf(Without(contents, id, quantity), other)
      == CountOf(contents, other) - if other == id then RemovedEntry(contents, id, quantity).quantity else 0
  {
    StackedSum(contents, item, OneOf(other));
    if Has(contents, id) { WithoutSum(contents, id, quantity, OneOf(other)); }
  }

  // ---- Runs ----

  lemma HasCons(e: SlotEntry, s: seq<SlotEntry>, id: string)
    ensures Has([e] + s, id) <==> e.definitionId == id || Has(s, id)
  {
    var t := [e] + s;
    assert t[0] == e;
    if i :| 0 <= i < |s| && s[i].definitionId == id { assert t[i + 1] == s[i]; }
    if i :| 0 <= i < |t| && t[i].definitionId == id { assert i > 0 ==> t[i] == s[i - 1]; }
  }

  lemma {:induction false} StackedHas(contents: seq<SlotEntry>, item: SlotEntry, id: string)
    ensures Has(Stacked(contents, item), id) <==> Has(contents, id) || id == item.definitionId
  {
    hide Has;
    if contents == [] {
      assert [item] + [] == [item];
      HasCons(item, [], id);
      NothingHas(id);
    } else {
      var e, tail := contents[0], contents[1..];
      assert contents == [e] + tail;
      HasCons(e, tail, id);
      if e.definitionId == item.definitionId {
        HasCons(e.(quantity := e.quantity + item.quantity), tail, id);
      } else {
        HasCons(e, Stacked(tail, item), id);
        StackedHas(tail, item, id);
      }
    }
  }

  lemma NothingHas(id: string)
    ensures !Has([], id)
  {
  }

  /** Adding keeps one entry per item, and needs a slot only for an item that had none. */
  lemma StackedShape(contents: seq<SlotEntry>, item: SlotEntry)
    requires DistinctIds(contents)
    ensures DistinctIds(Stacked(contents, item))
    ensures |Stacked(contents, item)| == |contents| + if Has(contents, item.definitionId) then 0 else 1
    ensures Positive(contents) && item.quantity > 0 ==> Positive(Stacked(contents, item))
  {
    hide FirstIndex, Stacked;
    var i := FirstIndex(contents, item.definitionId);
    if i < |contents| {
      StackedAt(contents, item, i);
      assert contents[i] in contents;
    } else {
      StackedNew(contents, item);
    }
  }

  function FirstIndex(contents: seq<SlotEntry>, id: string): (i: nat)
    ensures i <= |contents| && !Has(contents[..i], id)
    ensures i < |contents| <==> Has(contents, id)
    ensures i < |contents| ==> contents[i].definitionId == id
  {
    if contents == [] then 0
    else if contents[0].definitionId == id then 0
    else
      var j := FirstIndex(contents[1..], id);
      assert contents[..j + 1] == [contents[0]] + contents[1..][..j];
      assert Has(contents, id) ==> Has(contents[1..], id) by {
        if Has(contents, id) {
          var k :| 0 <= k < |contents| && contents[k].definitionId == id;
          assert contents[1..][k - 1] == contents[k];
        }
      }
      j + 1
  }

  lemma WithoutShape(contents: seq<SlotEntry>, id: string, quantity: int)
    requires DistinctIds(contents) && Has(contents, id)
    ensures DistinctIds(Without(contents, id, quantity)) && |Without(contents, id, quantity)| <= |contents|
    ensures Positive(contents) ==> Positive(Without(contents, id, quantity))
  {
    var i := FirstIndex(contents, id);
    WithoutAt(contents, id, quantity, i);
  }

  /** One request to the container. */
  datatype Op = Add(item: SlotEntry, itemType: ItemType) | Remove(id: string, quantity: int)

  /** The contents after a request; a refused one changes nothing. */
  function Apply(containerDef: ItemDefinition, defs: Definitions, contents: seq<SlotEntry>, op: Op): seq<SlotEntry> {
    match op
    case Add(item, itemType) => if AddError(containerDef, contents, item, itemType, defs).Some? then contents else Stacked(contents, item)
    case Remove(id, quantity) => if Has(contents, id) then Without(contents, id, quantity) else contents
  }

  function Run(containerDef: ItemDefinition, defs: Definitions, ops: seq<Op>): seq<SlotEntry> {
    if ops == [] then [] else Apply(containerDef, defs, Run(containerDef, defs, ops[..|ops| - 1]), ops[|ops| - 1])
  }

  predicate Asks(op: Op) {
    if op.Add? then op.item.quantity > 0 else op.quantity > 0
  }

  lemma ApplyKeepsValid(containerDef: ItemDefinition, defs: Definitions, contents: seq<SlotEntry>, op: Op)
    requires containerDef.containerProperties.Some? && Weighable(defs) && Asks(op)
    requires Valid(contents, containerDef.containerProperties.value, defs)
    ensures Valid(Apply(containerDef, defs, contents, op), containerDef.containerProperties.value, defs)
  {
    match op
    case Add(item, _) => StackedShape(contents, item);
    case Remove(id, quantity) =>
      if Has(contents, id) {
        WithoutShape(contents, id, quantity);
        WithoutSum(contents, id, quantity, WeightOf(defs));
        var each, taken := WeightOf(defs)(id), if quantity >= Entry(contents, id).quantity then Entry(contents, id).quantity else quantity;
        assert each * taken >= 0;
      }
  }

  /** Over every sequence of requests with positive quantities: distinct ids, positive quantities,
      no more slots and no more weight than allowed. */
  lemma {:induction false} RunKeepsValid(containerDef: ItemDefinition, defs: Definitions, ops: seq<Op>)
    requires containerDef.containerProperties.Some? && Weighable(defs) && forall op :: op in ops ==> Asks(op)
    ensures Valid(Run(containerDef, defs, ops), containerDef.containerProperties.value, defs)
  {
    if ops != [] {
      RunKeepsValid(containerDef, defs, ops[..|ops| - 1]);
      ApplyKeepsValid(containerDef, defs, Run(containerDef, defs, ops[..|ops| - 1]), ops[|ops| - 1]);
    }
  }

  lemma {:induction false} WithoutHas(contents: seq<SlotEntry>, id: string, quantity: int, other: string)
    requires Has(Without(contents, id, quantity), other)
    ensures Has(contents, other)
  {
    var after := Without(contents, id, quantity);
    var i :| 0 <= i < |after| && after[i].definitionId == other;
    if contents[0].definitionId == id {
      assert contents[if quantity >= contents[0].quantity then i + 1 else i].definitionId == other;
    } else if i == 0 {
      assert contents[0].definitionId == other;
    } else {
      assert Without(contents[1..], id, quantity)[i - 1] == after[i];
      WithoutHas(contents[1..], id, quantity, other);
      var j :| 0 <= j < |contents[1..]| && contents[1..][j].definitionId == other;
      assert contents[j + 1].definitionId == other;
    }
  }

  /** The item may go into such a container: it is of an allowed type and no container itself. */
  predicate MayHold(containerDef: ItemDefinition, itemType: ItemType) {
    && containerDef.itemType == Container && containerDef.containerProperties.Some? && itemType != Container
    && (containerDef.containerProperties.value.allowedItemTypes.Some? ==> itemType in containerDef.containerProperties.value.allowedItemTypes.value)
  }

  /** The request was to add such an item, and the container may hold it. */
  predicate Gave(containerDef: ItemDefinition, op: Op, id: string) {
    op.Add? && op.item.definitionId == id && MayHold(containerDef, op.itemType)
  }

  /** Over every sequence of requests, whatever quantities they ask for, a container holds only what it
      was given and may hold. */
  lemma {:induction false} RunHoldsAllowed(containerDef: ItemDefinition, defs: Definitions, ops: seq<Op>, id: string)
    requires Has(Run(containerDef, defs, ops), id)
    ensures exists op :: op in ops && Gave(containerDef, op, id)
  {
    if ops == [] {
      NothingHas(id);
    } else {
      var front, last := ops[..|ops| - 1], ops[|ops| - 1];
      var contents := Run(containerDef, defs, front);
      assert Run(containerDef, defs, ops) == Apply(containerDef, defs, contents, last);
      hide Has, Run;
      if last.Add? {
        StackedHas(contents, last.item, id);
      } else if Has(contents, last.id) && Has(Without(contents, last.id, last.quantity), id) {
        WithoutHas(contents, last.id, last.quantity, id);
      }
      if Has(contents, id) {
        RunHoldsAllowed(containerDef, defs, front, id);
        var op :| op in front && Gave(containerDef, op, id);
        assert op in ops;
      } else {
        assert last in ops && Gave(containerDef, last, id);
      }
    }
  }

  /** An item is added exactly when the container may hold it, it needs no slot that is not there, and
      the limit on the weight is kept; and otherwise the first of these that fails is the reason. */
  lemma AddedExactlyWhen(containerDef: ItemDefinition, contents: seq<SlotEntry>, item: SlotEntry, itemType: ItemType, defs: Definitions)
    requires DistinctIds(contents) && containerDef.containerProperties.Some?
    ensures var props, after, error := containerDef.containerProperties.value, Stacked(contents, item), AddError(containerDef, contents, item, itemType, defs);
            && (error == None <==> MayHold(containerDef, itemType) && (|after| == |contents| || |after| <= props.maxSlots)
                                   && (props.maxWeight.Some? ==> Weight(after, defs) <= props.maxWeight.value))
            && (error == Some(Nested) ==> itemType == Container && (props.allowedItemTypes.Some? ==> Container in props.allowedItemTypes.value))
            && (error == Some(Full) ==> MayHold(containerDef, itemType) && |after| > |contents| >= props.maxSlots)
            && (forall weight :: error == Some(TooHeavy(weight)) ==>
                  MayHold(containerDef, itemType) && weight == Weight(after, defs) && (|after| == |contents| || |after| <= props.maxSlots))
  {
    StackedShape(contents, item);
    hide Has, Stacked, Weight;
  }

  lemma AddThenRemoveStack(contents: seq<SlotEntry>, item: SlotEntry, i: nat)
    requires Positive(contents) && item.quantity > 0
    requires i < |contents| && contents[i].definitionId == item.definitionId && !Has(contents[..i], item.definitionId)
    ensures Has(Stacked(contents, item), item.definitionId) && Has(contents, item.definitionId)
    ensures Without(Stacked(contents, item), item.definitionId, item.quantity) == contents
    ensures RemovedEntry(Stacked(contents, item), item.definitionId, item.quantity).(durability := None) == item.(durability := None)
    ensures RemovedEntry(Stacked(contents, item), item.definitionId, item.quantity).durability == Entry(contents, item.definitionId).durability
  {
    hide Stacked, Without, Has, Entry;
    var after, e := Stacked(contents, item), contents[i];
    StackedAt(contents, item, i);
    assert e in contents;
    assert after[..i] == contents[..i] && after[i] == e.(quantity := e.quantity + item.quantity);
    WithoutAt(contents, item.definitionId, item.quantity, i);
    WithoutAt(after, item.definitionId, item.quantity, i);
    assert after[i := e] == contents;
  }

  lemma AddThenRemoveNew(contents: seq<SlotEntry>, item: SlotEntry)
    requires !Has(contents, item.definitionId)
    ensures Has(Stacked(contents, item), item.definitionId)
    ensures Without(Stacked(contents, item), item.definitionId, item.quantity) == contents
    ensures RemovedEntry(Stacked(contents, item), item.definitionId, item.quantity) == item
  {
    var after := Stacked(contents, item);
    StackedNew(contents, item);
    assert after[..|contents|] == contents;
    WithoutAt(after, item.definitionId, item.quantity, |contents|);
    assert contents + after[|contents| + 1..] == contents;
  }

  /** Removing what was just added restores the contents exactly, entry by entry; what comes out is
      what went in exactly when it did not join a stack of another durability. */
  lemma {:induction false} AddThenRemove(contents: seq<SlotEntry>, item: SlotEntry)
    requires Positive(contents) && item.quantity > 0
    ensures Has(Stacked(contents, item), item.definitionId)
    ensures Without(Stacked(contents, item), item.definitionId, item.quantity) == contents
    ensures RemovedEntry(Stacked(contents, item), item.definitionId, item.quantity) == item
            <==> (Has(contents, item.definitionId) ==> Entry(contents, item.definitionId).durability == item.durability)
  {
    hide Has, Stacked, Without, RemovedEntry, Positive;
    var i := FirstIndex(contents, item.definitionId);
    if i < |contents| {
      AddThenRemoveStack(contents, item, i);
    } else {
      AddThenRemoveNew(contents, item);
    }
  }

  /** The guard against a negative removal is missing: it adds items. */
  lemma NegativeRemovalAdds(contents: seq<SlotEntry>, id: string, quantity: int)
    requires Has(contents, id) && Positive(contents)
    ensures CountOf(Without(contents, id, quantity), id) > CountOf(contents, id) <==> quantity < 0
  {
    WithoutSum(contents, id, quantity, OneOf(id));
    assert Entry(contents, id) in contents;
  }

  /** An item that weighs something can be brought past any weight limit that way. */
  lemma NegativeRemovalOverloads(contents: seq<SlotEntry>, id: string, defs: Definitions, limit: int) returns (quantity: int)
    requires Has(contents, id) && Positive(contents) && WeightOf(defs)(id) > 0
    ensures quantity < 0 && Weight(Without(contents, id, quantity), defs) > limit
  {
    var weight, each := Weight(contents, defs), WeightOf(defs)(id);
    var more := (if limit > weight then limit - weight else 0) + 1;
    quantity := -more;
    WithoutSum(contents, id, quantity, WeightOf(defs));
    assert Entry(contents, id) in contents;
    assert each * quantity == -(each * more) && each * more >= more;
  }
}
