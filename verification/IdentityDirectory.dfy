/**
 The server's directory of public identity keys: publishing a key for a new device, and
 rotating the current key with an attestation signed by the outgoing one.
 */
module IdentityDirectory {
  import opened Wrappers

  type UserId = nat
  type Bytes = seq<bv8>

  /** One directory row; `attestation` is stored by rotations only. */
  datatype Record = Record(
    deviceLabel: string, signingKey: Bytes, kemKey: Bytes, version: int, attestation: Option<Bytes>,
    wrapped: Option<Bytes>, supersededAt: Option<int>)

  datatype Error = Malformed | NoActiveKey | BadAttestation

  /** Submitted key material; a field is absent when its base64 does not decode. */
  datatype KeyInput = KeyInput(signing: Option<Bytes>, kem: Option<Bytes>, wrapped: Option<Option<Bytes>>)

  predicate Decodes(input: KeyInput) {
    input.signing.Some? && input.kem.Some? && input.wrapped.Some?
  }

  /** The position of the non-superseded row with the greatest version: the head of the active list. */
  function NewestActive(rows: seq<Record>): (best: Option<nat>)
    ensures best.Some? ==> best.value < |rows| && rows[best.value].supersededAt == None
    ensures best.Some? ==> forall i :: 0 <= i < |rows| && rows[i].supersededAt == None ==>
            rows[i].version <= rows[best.value].version
    ensures best.None? ==> forall i :: 0 <= i < |rows| ==> rows[i].supersededAt != None
  {
    if rows == [] then None
    else
      var n := |rows| - 1;
      var init := NewestActive(rows[..n]);
      assert forall i :: 0 <= i < n ==> rows[..n][i] == rows[i];
      if rows[n].supersededAt != None then init
      else if init.None? || rows[init.value].version < rows[n].version then Some(n)
      else init
  }

  /** What publishing does to one user's rows. */
  function Published(rows: seq<Record>, device: string, input: KeyInput): (seq<Record>, Result<Record, Error>) {
    if !Decodes(input) then (rows, Err(Malformed))
    else
      var head := NewestActive(rows);
      var version := if head.Some? then rows[head.value].version + 1 else 1;
      var record := Record(device, input.signing.value, input.kem.value, version, None, input.wrapped.value, None);
      (rows + [record], Ok(record))
  }

  /** What rotating does to one user's rows; `verify` checks a signature under a public key. */
  function Rotated(rows: seq<Record>, input: KeyInput, attestation: Option<Bytes>, now: int,
                   verify: (Bytes, Bytes, Bytes) -> bool)
    : (seq<Record>, Result<Record, Error>)
  {
    var head := NewestActive(rows);
    if head.None? then (rows, Err(NoActiveKey))
    else if input.signing.None? || input.kem.None? || attestation.None? then (rows, Err(Malformed))
    else
      var outgoing := rows[head.value];
      if !verify(outgoing.signingKey, input.signing.value + input.kem.value, attestation.value)
      then (rows, Err(BadAttestation))
      else if input.wrapped.None? then (rows, Err(Malformed))
      else
        var record := Record(outgoing.deviceLabel, input.signing.value, input.kem.value, outgoing.version + 1,
                             attestation, input.wrapped.value, None);
        (rows[head.value := outgoing.(supersededAt := Some(now))] + [record], Ok(record))
  }

  class IdentityKeyService {
    const verify: (Bytes, Bytes, Bytes) -> bool
    var rows: map<UserId, seq<Record>>

    constructor (verify: (Bytes, Bytes, Bytes) -> bool)
      ensures this.verify == verify && rows == map[]
    {
      this.verify := verify;
      rows := map[];
    }

    function RowsOf(user: UserId): seq<Record>
      reads this
    {
      if user in rows then rows[user] else []
    }

    method Publish(user: UserId, device: string, input: KeyInput) returns (r: Result<Record, Error>)
      modifies this
      ensures (RowsOf(user), r) == Published(old(RowsOf(user)), device, input)
      ensures forall u :: u != user ==> RowsOf(u) == old(RowsOf(u))
    {
      var mine := RowsOf(user);
      var head := NewestActive(mine);
      var nextVersion := 1;
      if head.Some? {
        nextVersion := mine[head.value].version + 1;
      }
      if input.signing.None? || input.kem.None? || input.wrapped.None? {
        return Err(Malformed);
      }
      var record := Record(device, input.signing.value, input.kem.value, nextVersion, None, input.wrapped.value, None);
      rows := rows[user := mine + [record]];
      return Ok(record);
    }

    method MarkSuperseded(user: UserId, i: nat, now: int)
      requires i < |RowsOf(user)|
      modifies this
      ensures rows == old(rows)[user := old(RowsOf(user))[i :=
                        if old(RowsOf(user))[i].supersededAt == None
                        then old(RowsOf(user))[i].(supersededAt := Some(now)) else old(RowsOf(user))[i]]]
    {
      var mine := RowsOf(user);
      assert mine[i := mine[i]] == mine;
      if mine[i].supersededAt == None {
        mine := mine[i := mine[i].(supersededAt := Some(now))];
      }
      rows := rows[user := mine];
    }

    /** A failure after the outgoing key was marked rolls the whole call back. */
    method Rotate(user: UserId, input: KeyInput, attestation: Option<Bytes>, now: int)
      returns (r: Result<Record, Error>)
      modifies this
      ensures (RowsOf(user), r) == Rotated(old(RowsOf(user)), input, attestation, now, verify)
      ensures forall u :: u != user ==> RowsOf(u) == old(RowsOf(u))
    {
      var before := rows;
      var head := NewestActive(RowsOf(user));
      if head.None? {
        return Err(NoActiveKey);
      }
      var outgoing := RowsOf(user)[head.value];
      if input.signing.None? || input.kem.None? || attestation.None? {
        return Err(Malformed);
      }
      if !verify(outgoing.signingKey, input.signing.value + input.kem.value, attestation.value) {
        return Err(BadAttestation);
      }
      MarkSuperseded(user, head.value, now);
      if input.wrapped.None? {
        rows := before;
        return Err(Malformed);
      }
      var record := Record(outgoing.deviceLabel, input.signing.value, input.kem.value, outgoing.version + 1,
                           attestation, input.wrapped.value, None);
      rows := rows[user := RowsOf(user) + [record]];
      return Ok(record);
    }
  }

  // ---- Every run of publish and rotate ---------------------------------------------

  datatype Op =
    | Publish(device: string, input: KeyInput)
    | Rotate(input: KeyInput, attestation: Option<Bytes>, now: int)

  function Apply(rows: seq<Record>, op: Op, verify: (Bytes, Bytes, Bytes) -> bool)
    : (seq<Record>, Result<Record, Error>)
  {
    match op
    case Publish(device, input) => Published(rows, device, input)
    case Rotate(input, attestation, now) => Rotated(rows, input, attestation, now, verify)
  }

  /** One user's rows after a run of calls, failed ones included. */
  function Run(ops: seq<Op>, verify: (Bytes, Bytes, Bytes) -> bool): seq<Record> {
    if ops == [] then [] else Apply(Run(ops[..|ops| - 1], verify), ops[|ops| - 1], verify).0
  }

  /** The calls that added a row, in order. */
  function Successes(ops: seq<Op>, verify: (Bytes, Bytes, Bytes) -> bool): seq<Op> {
    if ops == [] then []
    else
      var init, op := ops[..|ops| - 1], ops[|ops| - 1];
      Successes(init, verify) + if Apply(Run(init, verify), op, verify).1.Ok? then [op] else []
  }

  /** `record` succeeds `outgoing` by rotation: its attestation is the outgoing key's over both new keys. */
  predicate Attests(outgoing: Record, record: Record, verify: (Bytes, Bytes, Bytes) -> bool) {
    record.attestation.Some? && verify(outgoing.signingKey, record.signingKey + record.kemKey, record.attestation.value)
  }

  /** Row `i` is what the calls that added row `i` and the next row make it. */
  /** Row `i` holds the very keys and material its call submitted; a rotation keeps the device's label. */
  predicate CarriesInput(rows: seq<Record>, op: Op, i: nat)
    requires i < |rows|
  {
    match op
    case Publish(device, input) =>
      && input.signing == Some(rows[i].signingKey) && input.kem == Some(rows[i].kemKey)
      && input.wrapped == Some(rows[i].wrapped) && rows[i].deviceLabel == device
    case Rotate(input, attestation, _) =>
      && input.signing == Some(rows[i].signingKey) && input.kem == Some(rows[i].kemKey)
      && input.wrapped == Some(rows[i].wrapped) && rows[i].attestation == attestation
      && (i > 0 ==> rows[i].deviceLabel == rows[i - 1].deviceLabel)
  }

  predicate MatchesAt(rows: seq<Record>, done: seq<Op>, i: nat, verify: (Bytes, Bytes, Bytes) -> bool)
    requires |rows| == |done| && i < |rows|
  {
    && rows[i].version == i + 1
    && CarriesInput(rows, done[i], i)
    && (i == 0 ==> done[i].Publish?)
    && (rows[i].attestation.Some? <==> done[i].Rotate?)
    && if i == |rows| - 1 then rows[i].supersededAt == None
       else
         && (rows[i].supersededAt.Some? <==> done[i + 1].Rotate?)
         && (done[i + 1].Rotate? ==> Attests(rows[i], rows[i + 1], verify))
  }

  predicate MatchesHistory(rows: seq<Record>, done: seq<Op>, verify: (Bytes, Bytes, Bytes) -> bool) {
    |rows| == |done| && forall i :: 0 <= i < |rows| ==> MatchesAt(rows, done, i, verify)
  }

  /** With versions counting up and the last row active, the head of the active list is the last row. */
  lemma HeadIsLast(rows: seq<Record>)
    requires forall i :: 0 <= i < |rows| ==> rows[i].version == i + 1
    requires rows != [] ==> rows[|rows| - 1].supersededAt == None
    ensures NewestActive(rows) == if rows == [] then None else Some(|rows| - 1)
  {
  }

  lemma HeadOfHistory(rows: seq<Record>, done: seq<Op>, verify: (Bytes, Bytes, Bytes) -> bool)
    requires MatchesHistory(rows, done, verify)
    ensures NewestActive(rows) == if rows == [] then None else Some(|rows| - 1)
  {
    forall i | 0 <= i < |rows|
      ensures rows[i].version == i + 1 && (i == |rows| - 1 ==> rows[i].supersededAt == None)
    {
      assert MatchesAt(rows, done, i, verify);
    }
    HeadIsLast(rows);
  }

  lemma ApplyMatchesHistory(rows: seq<Record>, done: seq<Op>, op: Op, verify: (Bytes, Bytes, Bytes) -> bool)
    requires MatchesHistory(rows, done, verify)
    ensures var (rows', r) := Apply(rows, op, verify); MatchesHistory(rows', done + if r.Ok? then [op] else [], verify)
  {
    HeadOfHistory(rows, done, verify);
    var (rows', r) := Apply(rows, op, verify);
    if r.Err? {
      assert done + [] == done;
    } else {
      var done' := done + [op];
      var n := |rows|;
      assert n > 0 ==> MatchesAt(rows, done, n - 1, verify);
      forall i | 0 <= i < |rows'| ensures MatchesAt(rows', done', i, verify) {
        if i < n {
          assert MatchesAt(rows, done, i, verify);
        }
      }
    }
  }

  /**
   After any run of calls for a user: the n-th record has version n, the newest is active,
   each holds the keys and material its call submitted, an attestation is on exactly the records
   that came from rotations, and a record is
   superseded exactly when its successor came from a rotation, whose attestation verifies
   under the superseded record's signing key over the new signing key and the new KEM key.
   */
  lemma {:induction false} DirectoryMatchesHistory(ops: seq<Op>, verify: (Bytes, Bytes, Bytes) -> bool)
    ensures MatchesHistory(Run(ops, verify), Successes(ops, verify), verify)
  {
    if ops != [] {
      var init, op := ops[..|ops| - 1], ops[|ops| - 1];
      DirectoryMatchesHistory(init, verify);
      ApplyMatchesHistory(Run(init, verify), Successes(init, verify), op, verify);
    }
  }

  /** The key others encrypt to and verify by, the head of the active list, is always the newest record. */
  lemma {:induction false} ActiveHeadIsNewest(ops: seq<Op>, verify: (Bytes, Bytes, Bytes) -> bool)
    ensures var rows := Run(ops, verify); NewestActive(rows) == if rows == [] then None else Some(|rows| - 1)
  {
    DirectoryMatchesHistory(ops, verify);
    HeadOfHistory(Run(ops, verify), Successes(ops, verify), verify);
  }

  /** A publication is accepted exactly if all its material decodes, and then becomes the newest record. */
  lemma PublicationAcceptedIff(ops: seq<Op>, verify: (Bytes, Bytes, Bytes) -> bool, device: string, input: KeyInput)
    ensures var rows := Run(ops, verify);
            var (rows', r) := Published(rows, device, input);
            && (r.Ok? <==> input.signing.Some? && input.kem.Some? && input.wrapped.Some?)
            && (r.Err? ==> rows' == rows)
            && (r.Ok? ==> rows' == rows + [r.value] && r.value.version == |rows| + 1 && r.value.supersededAt == None)
  {
    ActiveHeadIsNewest(ops, verify);
    DirectoryMatchesHistory(ops, verify);
    var rows := Run(ops, verify);
    assert rows != [] ==> MatchesAt(rows, Successes(ops, verify), |rows| - 1, verify);
  }

  /**
   When a rotation is accepted: exactly when there is a record, the material decodes, and
   the attestation verifies under the newest record's signing key; refused ones change nothing.
   */
  lemma {:induction false} RotationAcceptedIff(
    ops: seq<Op>, verify: (Bytes, Bytes, Bytes) -> bool, input: KeyInput, attestation: Option<Bytes>, now: int)
    ensures var rows := Run(ops, verify);
            var (rows', r) := Rotated(rows, input, attestation, now, verify);
            && (r.Ok? <==>
                  && rows != [] && Decodes(input) && attestation.Some?
                  && verify(rows[|rows| - 1].signingKey, input.signing.value + input.kem.value, attestation.value))
            && (r.Err? ==> rows' == rows)
            && (r.Ok? ==> r.value.version == |rows| + 1 && rows'[|rows| - 1].supersededAt == Some(now))
  {
    ActiveHeadIsNewest(ops, verify);
    DirectoryMatchesHistory(ops, verify);
    var rows := Run(ops, verify);
    assert rows != [] ==> MatchesAt(rows, Successes(ops, verify), |rows| - 1, verify);
  }
}
