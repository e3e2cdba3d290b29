/**
 The browser's store of group epoch keys: one item per (conversation, epoch) and one
 "current epoch" marker per conversation, all in the same flat local storage.
 */
module GroupKeyStore {
  import opened Wrappers
  import opened SymbolicCrypto
  import Decimal
  import AssociatedData

  datatype Slot = KeySlot(conv: string, epoch: int) | EpochSlot(conv: string)

  const KEY_PREFIX := "vayunx.groupkey."
  const EPOCH_PREFIX := "vayunx.groupepoch."

  /** The text under which local storage files a slot. */
  function SlotText(s: Slot): string {
    match s
    case KeySlot(conv, epoch) => KEY_PREFIX + conv + "." + Decimal.Print(epoch)
    case EpochSlot(conv) => EPOCH_PREFIX + conv
  }

  /** Distinct slots never share a storage key, so slots may stand for the texts. */
  lemma SlotTextInjective(a: Slot, b: Slot)
    requires AssociatedData.IsUuid(a.conv) && AssociatedData.IsUuid(b.conv)
    requires SlotText(a) == SlotText(b)
    ensures a == b
  {
    var n := |KEY_PREFIX|;
    assert KEY_PREFIX[12] == 'k' && EPOCH_PREFIX[12] == 'e';
    assert SlotText(a)[12] == 'k' <==> a.KeySlot?;
    assert SlotText(b)[12] == 'k' <==> b.KeySlot?;
    if a.KeySlot? {
      assert SlotText(a)[n..n + 36] == a.conv && SlotText(b)[n..n + 36] == b.conv;
      assert SlotText(a)[n + 37..] == Decimal.Print(a.epoch);
      assert SlotText(b)[n + 37..] == Decimal.Print(b.epoch);
      Decimal.PrintInjective(a.epoch, b.epoch);
    } else {
      assert SlotText(a)[|EPOCH_PREFIX|..] == a.conv && SlotText(b)[|EPOCH_PREFIX|..] == b.conv;
    }
  }

  datatype Item = KeyItem(key: SymKey) | EpochItem(epoch: int)

  type Storage = map<Slot, Item>

  function GetCurrentEpoch(st: Storage, conv: string): Option<int> {
    if EpochSlot(conv) in st && st[EpochSlot(conv)].EpochItem? then Some(st[EpochSlot(conv)].epoch) else None
  }

  function GetKey(st: Storage, conv: string, epoch: int): Option<SymKey> {
    if KeySlot(conv, epoch) in st && st[KeySlot(conv, epoch)].KeyItem? then Some(st[KeySlot(conv, epoch)].key) else None
  }

  /** The storage after a key is stored: the marker moves only to a newer epoch. */
  function SetKey(st: Storage, conv: string, epoch: int, key: SymKey): Storage {
    var current := GetCurrentEpoch(st, conv);
    var stored := st[KeySlot(conv, epoch) := KeyItem(key)];
    if current.None? || epoch > current.value then stored[EpochSlot(conv) := EpochItem(epoch)] else stored
  }

  /** Whether clearing `conv` removes slot `s`. */
  predicate Cleared(st: Storage, conv: string, s: Slot) {
    s.conv == conv &&
    match s
    case EpochSlot(_) => true
    case KeySlot(_, e) => GetCurrentEpoch(st, conv).Some? && 1 <= e <= GetCurrentEpoch(st, conv).value
  }

  function Clear(st: Storage, conv: string): Storage {
    map s | s in st && !Cleared(st, conv, s) :: st[s]
  }

  /** The store itself, writing through to local storage item by item. */
  class Store {
    var storage: Storage

    constructor ()
      ensures storage == map[]
    {
      storage := map[];
    }

    method Put(conv: string, epoch: int, key: SymKey)
      modifies this
      ensures storage == SetKey(old(storage), conv, epoch, key)
    {
      var current := GetCurrentEpoch(storage, conv);
      storage := storage[KeySlot(conv, epoch) := KeyItem(key)];
      if current == None || epoch > current.value {
        storage := storage[EpochSlot(conv) := EpochItem(epoch)];
      }
    }

    method Forget(conv: string)
      modifies this
      ensures storage == Clear(old(storage), conv)
    {
      var current := GetCurrentEpoch(storage, conv);
      if current != None {
        var e := 1;
        while e <= current.value
          invariant 1 <= e && (e == 1 || e <= current.value + 1)
          invariant storage == map s | s in old(storage) &&
                      !(s.KeySlot? && s.conv == conv && 1 <= s.epoch < e) :: old(storage)[s]
        {
          storage := storage - {KeySlot(conv, e)};
          e := e + 1;
        }
      }
      storage := storage - {EpochSlot(conv)};
    }
  }

  // ---- What every run of the store keeps ----------------------------------

  predicate WellTyped(st: Storage) {
    forall s <- st :: s.KeySlot? <==> st[s].KeyItem?
  }

  function StoredEpochs(st: Storage, conv: string): set<int> {
    set s | s in st && s.KeySlot? && s.conv == conv :: s.epoch
  }

  /** The marker names the newest stored epoch, and is absent exactly when nothing is stored. */
  predicate MarkerIsMax(st: Storage, conv: string) {
    match GetCurrentEpoch(st, conv)
    case None => StoredEpochs(st, conv) == {}
    case Some(m) => m in StoredEpochs(st, conv) && forall e <- StoredEpochs(st, conv) :: e <= m
  }

  datatype Op = SetOp(conv: string, epoch: int, key: SymKey) | ClearOp(conv: string)

  function Apply(st: Storage, op: Op): Storage {
    match op
    case SetOp(conv, epoch, key) => SetKey(st, conv, epoch, key)
    case ClearOp(conv) => Clear(st, conv)
  }

  /** The storage after `ops`, starting from nothing. */
  function Run(ops: seq<Op>): Storage {
    if ops == [] then map[] else Apply(Run(ops[..|ops| - 1]), ops[|ops| - 1])
  }

  /** Independent reference: the key last stored for an epoch since the conversation was last cleared. */
  function LastSet(ops: seq<Op>, conv: string, epoch: int): Option<SymKey> {
    if ops == [] then None
    else match ops[|ops| - 1] {
      case SetOp(c, e, key) => if c == conv && e == epoch then Some(key) else LastSet(ops[..|ops| - 1], conv, epoch)
      case ClearOp(c) => if c == conv then None else LastSet(ops[..|ops| - 1], conv, epoch)
    }
  }

  predicate PositiveEpochs(ops: seq<Op>) {
    forall op <- ops :: op.SetOp? ==> op.epoch >= 1
  }

  lemma StoredEpochsAre(st: Storage, conv: string)
    ensures forall e :: e in StoredEpochs(st, conv) <==> KeySlot(conv, e) in st
  {
  }

  /**
   Clearing a conversation removes its marker and exactly its keys of epoch 1 and up,
   and touches no other conversation. So nothing of it is left if and only if every
   stored epoch was at least 1.
   */
  lemma ClearIsExact(st: Storage, conv: string)
    requires MarkerIsMax(st, conv)
    ensures GetCurrentEpoch(Clear(st, conv), conv) == None
    ensures StoredEpochs(Clear(st, conv), conv) == set e | e in StoredEpochs(st, conv) && e < 1
    ensures StoredEpochs(Clear(st, conv), conv) == {} <==> forall e <- StoredEpochs(st, conv) :: e >= 1
    ensures forall s: Slot :: s.conv != conv ==>
              (s in Clear(st, conv) <==> s in st) && (s in st ==> Clear(st, conv)[s] == st[s])
  {
    var after := Clear(st, conv);
    StoredEpochsAre(st, conv);
    StoredEpochsAre(after, conv);
    forall e ensures e in StoredEpochs(after, conv) <==> e in StoredEpochs(st, conv) && e < 1 {
      assert KeySlot(conv, e) in after <==> KeySlot(conv, e) in st && !Cleared(st, conv, KeySlot(conv, e));
    }
    if e :| e in StoredEpochs(st, conv) && e < 1 {
      assert e in StoredEpochs(after, conv);
    }
  }

  lemma SetKeyKeepsMarker(st: Storage, conv: string, epoch: int, key: SymKey, other: string)
    requires MarkerIsMax(st, other)
    ensures MarkerIsMax(SetKey(st, conv, epoch, key), other)
    ensures StoredEpochs(SetKey(st, conv, epoch, key), other) ==
            StoredEpochs(st, other) + (if other == conv then {epoch} else {})
  {
    var after := SetKey(st, conv, epoch, key);
    StoredEpochsAre(st, other);
    StoredEpochsAre(after, other);
    assert forall e :: KeySlot(other, e) in after <==> KeySlot(other, e) in st || (other == conv && e == epoch);
  }

  /**
   Over every sequence of stores of epochs from 1 up and clears, for every conversation:
   the marker is the greatest stored epoch, and each epoch holds exactly the key last
   stored for it since the conversation was last cleared.
   */
  lemma {:induction false} RunKeepsMarker(ops: seq<Op>, conv: string)
    requires PositiveEpochs(ops)
    ensures WellTyped(Run(ops)) && MarkerIsMax(Run(ops), conv)
    ensures forall e <- StoredEpochs(Run(ops), conv) :: e >= 1
    ensures forall e :: GetKey(Run(ops), conv, e) == LastSet(ops, conv, e)
  {
    if ops != [] {
      var before, op := ops[..|ops| - 1], ops[|ops| - 1];
      assert forall o <- before :: o in ops;
      RunKeepsMarker(before, conv);
      var st := Run(before);
      match op {
        case SetOp(c, epoch, key) =>
          SetKeyKeepsMarker(st, c, epoch, key, conv);
        case ClearOp(c) =>
          ClearStep(st, c, conv);
      }
    }
  }

  lemma ClearStep(st: Storage, c: string, conv: string)
    requires WellTyped(st) && MarkerIsMax(st, conv)
    requires forall e <- StoredEpochs(st, conv) :: e >= 1
    ensures var after := Clear(st, c);
            && WellTyped(after) && MarkerIsMax(after, conv)
            && (forall e <- StoredEpochs(after, conv) :: e >= 1)
            && forall e :: GetKey(after, conv, e) == if c == conv then None else GetKey(st, conv, e)
  {
    var after := Clear(st, c);
    StoredEpochsAre(st, conv);
    StoredEpochsAre(after, conv);
    if c == conv {
      ClearIsExact(st, conv);
      assert forall e :: KeySlot(conv, e) !in after;
    } else {
      assert forall e :: KeySlot(conv, e) in after <==> KeySlot(conv, e) in st;
      assert StoredEpochs(after, conv) == StoredEpochs(st, conv);
    }
  }
}
