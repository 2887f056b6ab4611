/** The six tables of the registry database and what each store operation does to them. */
module RegistryTables {

  type Said = string

  datatype Ilk = Rip | Bup | OtherIlk

  /** A registry event: its SAID and the fields the registry reads. The registry of an inception is
      the inception's own SAID; an update names its registry and its predecessor. */
  datatype Serder = Serder(said: Said, ilk: Ilk, rd: Said, sn: nat, prior: Said, issuer: string)

  /** A source seal: the number and digest of the key event that anchors a registry event. */
  datatype Seal = Seal(sn: nat, dig: string)

  /** A registry SAID with a sequence number. */
  datatype Slot = Slot(regk: Said, sn: nat)

  datatype Tables = Tables(
    evts: map<Said, Serder>,
    ancs: map<Said, Seal>,
    tels: map<Slot, Said>,
    heads: map<Said, Said>,
    maes: map<Slot, seq<Said>>,
    ooes: map<Slot, seq<Said>>)

  const EMPTY := Tables(map[], map[], map[], map[], map[], map[])

  // ----- insertion-ordered sets --------------------------------------------------------------

  function Entries(m: map<Slot, seq<Said>>, slot: Slot): seq<Said> {
    if slot in m then m[slot] else []
  }

  /** Adding a member that is there already changes nothing. */
  function Add(s: seq<Said>, x: Said): seq<Said> {
    if x in s then s else s + [x]
  }

  function Rem(s: seq<Said>, x: Said): seq<Said> {
    if s == [] then []
    else if s[0] == x then s[1..]
    else [s[0]] + Rem(s[1..], x)
  }

  function AddAt(m: map<Slot, seq<Said>>, slot: Slot, x: Said): map<Slot, seq<Said>> {
    m[slot := Add(Entries(m, slot), x)]
  }

  function RemAt(m: map<Slot, seq<Said>>, slot: Slot, x: Said): map<Slot, seq<Said>> {
    m[slot := Rem(Entries(m, slot), x)]
  }

  // ----- operations --------------------------------------------------------------------------

  /** One table update of a run. */
  datatype Op =
    | EventPut(serder: Serder)
    | AnchorPut(said: Said, anchor: Seal)
    | Accepted(slot: Slot, serder: Serder)
    | MissingAnchorAdded(slot: Slot, said: Said)
    | OutOfOrderAdded(slot: Slot, said: Said)
    | MissingAnchorRemoved(slot: Slot, said: Said)
    | OutOfOrderRemoved(slot: Slot, said: Said)

  /** An anchor replaces the stored one only when its sealing event comes strictly earlier. */
  predicate AnchorTaken(t: Tables, said: Said, anchor: Seal) {
    said in t.ancs ==> anchor.sn < t.ancs[said].sn
  }

  function Step(t: Tables, op: Op): Tables {
    match op
    case EventPut(e) => t.(evts := t.evts[e.said := e])
    case AnchorPut(s, a) => if AnchorTaken(t, s, a) then t.(ancs := t.ancs[s := a]) else t
    case Accepted(slot, e) =>
      t.(evts := t.evts[e.said := e],
         tels := if slot in t.tels then t.tels else t.tels[slot := e.said],
         heads := t.heads[slot.regk := e.said])
    case MissingAnchorAdded(slot, s) => t.(maes := AddAt(t.maes, slot, s))
    case OutOfOrderAdded(slot, s) => t.(ooes := AddAt(t.ooes, slot, s))
    case MissingAnchorRemoved(slot, s) => t.(maes := RemAt(t.maes, slot, s))
    case OutOfOrderRemoved(slot, s) => t.(ooes := RemAt(t.ooes, slot, s))
  }

  /** The tables after a run that starts from an empty database. */
  function Run(ops: seq<Op>): Tables {
    if ops == [] then EMPTY else Step(Run(ops[..|ops| - 1]), ops[|ops| - 1])
  }

  lemma RunStep(ops: seq<Op>, op: Op)
    ensures Run(ops + [op]) == Step(Run(ops), op)
  {
    assert (ops + [op])[..|ops|] == ops;
  }
}
