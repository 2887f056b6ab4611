/** The registry database and the store that wraps it. */
module RegistryStore {
  import opened Outcomes
  import opened RegistryTables

  class RegBaser {
    var evts: map<Said, Serder>
    var ancs: map<Said, Seal>
    var tels: map<Slot, Said>
    var heads: map<Said, Said>
    var maes: map<Slot, seq<Said>>
    var ooes: map<Slot, seq<Said>>

    ghost function Now(): Tables
      reads this
    {
      Tables(evts, ancs, tels, heads, maes, ooes)
    }

    /** Opens a database on the six tables stored there; a new one has them empty. */
    constructor (stored: Tables)
      ensures Now() == stored
    {
      evts, ancs, tels, heads, maes, ooes := stored.evts, stored.ancs, stored.tels, stored.heads, stored.maes, stored.ooes;
    }
  }

  class Store {
    const baser: RegBaser
    ghost var history: seq<Op>

    /** The tables are what the operations so far make of an empty database. */
    ghost predicate Valid()
      reads this, baser
    {
      baser.Now() == Run(history)
    }

    ghost function Now(): Tables
      reads baser
    {
      baser.Now()
    }

    /** A store over a database that some operations, none for a new one, have brought where it is. */
    constructor (db: RegBaser, ghost past: seq<Op>)
      requires db.Now() == Run(past)
      ensures baser == db && Valid() && history == past
    {
      baser := db;
      history := past;
    }

    method Event(said: Said) returns (r: Option<Serder>)
      ensures r == if said in Now().evts then Some(Now().evts[said]) else None
    {
      r := if said in baser.evts then Some(baser.evts[said]) else None;
    }

    method PutEvent(serder: Serder) returns (ok: bool)
      requires Valid()
      modifies this`history, baser
      ensures Valid() && history == old(history) + [EventPut(serder)]
      ensures Now() == old(Now()).(evts := old(Now().evts)[serder.said := serder]) && ok
    {
      RunStep(history, EventPut(serder));
      baser.evts := baser.evts[serder.said := serder];
      history := history + [EventPut(serder)];
      ok := true;
    }

    method Anchor(said: Said) returns (r: Option<Seal>)
      ensures r == if said in Now().ancs then Some(Now().ancs[said]) else None
    {
      r := if said in baser.ancs then Some(baser.ancs[said]) else None;
    }

    /** Keeps the earliest sealing event; a later or equal one is refused. */
    method PutAnchor(said: Said, anchor: Seal) returns (ok: bool)
      requires Valid()
      modifies this`history, baser
      ensures Valid() && history == old(history) + [AnchorPut(said, anchor)]
      ensures ok <==> said !in old(Now().ancs) || anchor.sn < old(Now().ancs)[said].sn
      ensures Now() == if ok then old(Now()).(ancs := old(Now().ancs)[said := anchor]) else old(Now())
    {
      RunStep(history, AnchorPut(said, anchor));
      history := history + [AnchorPut(said, anchor)];
      var current := Anchor(said);
      if current.Some? && current.value.sn <= anchor.sn {
        return false;
      }
      baser.ancs := baser.ancs[said := anchor];
      ok := true;
    }

    method Head(regk: Said) returns (r: Option<Said>)
      ensures r == if regk in Now().heads then Some(Now().heads[regk]) else None
    {
      r := if regk in baser.heads then Some(baser.heads[regk]) else None;
    }

    method HeadEvent(regk: Said) returns (r: Option<Serder>)
      ensures r == if regk in Now().heads && Now().heads[regk] in Now().evts
                   then Some(Now().evts[Now().heads[regk]]) else None
    {
      var saider := Head(regk);
      if saider.Some? {
        r := Event(saider.value);
      } else {
        r := None;
      }
    }

    method SeqSaider(slot: Slot) returns (r: Option<Said>)
      ensures r == if slot in Now().tels then Some(Now().tels[slot]) else None
    {
      r := if slot in baser.tels then Some(baser.tels[slot]) else None;
    }

    method SeqEvent(slot: Slot) returns (r: Option<Serder>)
      ensures r == if slot in Now().tels && Now().tels[slot] in Now().evts
                   then Some(Now().evts[Now().tels[slot]]) else None
    {
      var saider := SeqSaider(slot);
      if saider.Some? {
        r := Event(saider.value);
      } else {
        r := None;
      }
    }

    /** Stores the body, commits it to the log if the slot is free, and moves the head to it. */
    method Accept(slot: Slot, serder: Serder)
      requires Valid()
      modifies this`history, baser
      ensures Valid() && history == old(history) + [Accepted(slot, serder)]
      ensures Now() == old(Now()).(
                evts := old(Now().evts)[serder.said := serder],
                tels := if slot in old(Now().tels) then old(Now().tels) else old(Now().tels)[slot := serder.said],
                heads := old(Now().heads)[slot.regk := serder.said])
    {
      RunStep(history, Accepted(slot, serder));
      baser.evts := baser.evts[serder.said := serder];
      if slot !in baser.tels {
        baser.tels := baser.tels[slot := serder.said];
      }
      baser.heads := baser.heads[slot.regk := serder.said];
      history := history + [Accepted(slot, serder)];
    }

    method EscrowMissingAnchor(slot: Slot, said: Said) returns (added: bool)
      requires Valid()
      modifies this`history, baser
      ensures Valid() && history == old(history) + [MissingAnchorAdded(slot, said)]
      ensures added <==> said !in old(Entries(Now().maes, slot))
      ensures Now() == Step(old(Now()), MissingAnchorAdded(slot, said))
      ensures Entries(Now().maes, slot) ==
              if added then old(Entries(Now().maes, slot)) + [said] else old(Entries(Now().maes, slot))
    {
      RunStep(history, MissingAnchorAdded(slot, said));
      added := said !in Entries(baser.maes, slot);
      baser.maes := AddAt(baser.maes, slot, said);
      history := history + [MissingAnchorAdded(slot, said)];
    }

    method EscrowOutOfOrder(slot: Slot, said: Said) returns (added: bool)
      requires Valid()
      modifies this`history, baser
      ensures Valid() && history == old(history) + [OutOfOrderAdded(slot, said)]
      ensures added <==> said !in old(Entries(Now().ooes, slot))
      ensures Now() == Step(old(Now()), OutOfOrderAdded(slot, said))
      ensures Entries(Now().ooes, slot) ==
              if added then old(Entries(Now().ooes, slot)) + [said] else old(Entries(Now().ooes, slot))
    {
      RunStep(history, OutOfOrderAdded(slot, said));
      added := said !in Entries(baser.ooes, slot);
      baser.ooes := AddAt(baser.ooes, slot, said);
      history := history + [OutOfOrderAdded(slot, said)];
    }

    /** Removes one SAID from the missing-anchor escrow of a slot. */
    method RemMissingAnchor(slot: Slot, said: Said)
      requires Valid()
      modifies this`history, baser
      ensures Valid() && history == old(history) + [MissingAnchorRemoved(slot, said)]
      ensures Now() == Step(old(Now()), MissingAnchorRemoved(slot, said))
    {
      RunStep(history, MissingAnchorRemoved(slot, said));
      baser.maes := RemAt(baser.maes, slot, said);
      history := history + [MissingAnchorRemoved(slot, said)];
    }

    method RemOutOfOrder(slot: Slot, said: Said)
      requires Valid()
      modifies this`history, baser
      ensures Valid() && history == old(history) + [OutOfOrderRemoved(slot, said)]
      ensures Now() == Step(old(Now()), OutOfOrderRemoved(slot, said))
    {
      RunStep(history, OutOfOrderRemoved(slot, said));
      baser.ooes := RemAt(baser.ooes, slot, said);
      history := history + [OutOfOrderRemoved(slot, said)];
    }

    method ClearEscrows(slot: Slot, said: Said)
      requires Valid()
      modifies this`history, baser
      ensures Valid()
      ensures history == old(history) + [MissingAnchorRemoved(slot, said), OutOfOrderRemoved(slot, said)]
      ensures Now() == Cleared(old(Now()), slot, said)
    {
      RemMissingAnchor(slot, said);
      RemOutOfOrder(slot, said);
    }
  }

  function Cleared(t: Tables, slot: Slot, said: Said): Tables {
    t.(maes := RemAt(t.maes, slot, said), ooes := RemAt(t.ooes, slot, said))
  }
}
