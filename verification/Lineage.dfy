// rucelium-calibration/src/store.rs: calibration records whose parent chains must end
// at a factory or reference-station anchor.  The modality and hash fields are opaque.
module Lineage {
  import opened Common
  import opened Words

  datatype Record = Record(
    id: U32, nodeId: U64, modality: string, procedure: string, parent: Option<U32>, createdNs: U64, expiresNs: U64,
    scaleQ16: I32, dataHash: string, signature: Option<string>, signer: Option<string>)
  {
    predicate IsExpired(nowNs: U64) {
      nowNs >= expiresNs
    }

    // CalibrationRecord::validate.
    predicate Valid() {
      id != 0 && procedure != "" && expiresNs > createdNs && scaleQ16 != 0 && dataHash != ""
    }

    predicate Anchored() {
      procedure == "factory" || procedure == "anchor_reference"
    }
  }

  type Records = map<U32, Record>

  datatype LineageError =
    | InvalidRecord
    | DuplicateId(id: U32)
    | UnknownRecord(id: U32)
    | BrokenLineage(child: U32, missingParent: U32)
    | LineageCycle(id: U32)
    | UnanchoredRoot(id: U32)
    | MissingSignature(id: U32)
    | BadSignature(id: U32)
    | UntrustedSigner(id: U32, key: string)

  // None is the permissive mode; else the signature check and the keys trusted for
  // each modality.
  datatype Authorities = Authorities(verify: Record -> bool, trusted: (string, string) -> bool)

  function CheckAuthority(authorities: Option<Authorities>, r: Record): Result<(), LineageError> {
    match authorities
    case None => Ok(())
    case Some(a) =>
      if r.signature.None? || r.signer.None? then Err(MissingSignature(r.id))
      else if !a.verify(r) then Err(LineageError.BadSignature(r.id))
      else if !a.trusted(r.signer.value, r.modality) then Err(UntrustedSigner(r.id, r.signer.value))
      else Ok(())
  }

  datatype Store = Store(records: Records, authorities: Option<Authorities>)

  function InsertInto(s: Store, r: Record): (Store, Result<(), LineageError>) {
    if !r.Valid() then (s, Err(InvalidRecord))
    else if CheckAuthority(s.authorities, r).Err? then (s, CheckAuthority(s.authorities, r))
    else if r.id in s.records then (s, Err(DuplicateId(r.id)))
    else if r.parent.Some? && r.parent.value !in s.records then (s, Err(BrokenLineage(r.id, r.parent.value)))
    else if r.parent.None? && !r.Anchored() then (s, Err(UnanchoredRoot(r.id)))
    else (s.(records := s.records[r.id := r]), Ok(()))
  }

  // ---------------------------------------------------------------------
  // The walk to the root
  // ---------------------------------------------------------------------

  // What stops the walk at `current` after `chain`, if anything.
  function Fault(s: Store, chain: seq<U32>, current: U32): Option<LineageError> {
    if current in chain then Some(LineageCycle(current))
    else if current !in s.records then
      Some(if chain == [] then UnknownRecord(current) else BrokenLineage(chain[|chain| - 1], current))
    else
      var checked := CheckAuthority(s.authorities, s.records[current]);
      if checked.Err? then Some(checked.error)
      else if s.records[current].parent.None? && !s.records[current].Anchored() then Some(UnanchoredRoot(current))
      else None
  }

  // Records not yet on the chain: the walk visits each at most once.
  function Unvisited(s: Store, chain: seq<U32>): nat {
    |s.records.Keys - Elements(chain)|
  }

  lemma {:induction false} VisitingShrinks(s: Store, chain: seq<U32>, current: U32)
    requires current in s.records && current !in chain
    ensures Unvisited(s, chain + [current]) < Unvisited(s, chain)
  {
    ElementsOfSum(chain, [current]);
    var left := s.records.Keys - Elements(chain);
    assert s.records.Keys - Elements(chain + [current]) == left - {current};
  }

  function Walk(s: Store, chain: seq<U32>, current: U32): Result<seq<U32>, LineageError>
    decreases Unvisited(s, chain)
  {
    var fault := Fault(s, chain, current);
    if fault.Some? then Err(fault.value)
    else if s.records[current].parent.None? then Ok(chain + [current])
    else
      VisitingShrinks(s, chain, current);
      Walk(s, chain + [current], s.records[current].parent.value)
  }

  function VerifyLineage(s: Store, id: U32): Result<seq<U32>, LineageError> {
    Walk(s, [], id)
  }

  // ---- What each refusal names ----

  ghost function SignatureChecks(authorities: Option<Authorities>, r: Record): seq<Check<LineageError>> {
    match authorities
    case None => []
    case Some(a) =>
      [Check(r.signature.Some? && r.signer.Some?, MissingSignature(r.id)),
       Check(a.verify(r), LineageError.BadSignature(r.id)),
       Check(r.signer.Some? && a.trusted(r.signer.value, r.modality),
             UntrustedSigner(r.id, if r.signer.Some? then r.signer.value else ""))]
  }

  ghost function InsertChecks(s: Store, r: Record): seq<Check<LineageError>> {
    [Check(r.id != 0 && r.procedure != "" && r.createdNs < r.expiresNs && r.scaleQ16 != 0 && r.dataHash != "",
           InvalidRecord)]
    + (SignatureChecks(s.authorities, r)
       + [Check(r.id !in s.records, DuplicateId(r.id)),
          Check(r.parent.Some? ==> r.parent.value in s.records,
                BrokenLineage(r.id, if r.parent.Some? then r.parent.value else 0)),
          Check(r.parent.None? ==> r.procedure in {"factory", "anchor_reference"}, UnanchoredRoot(r.id))])
  }

  lemma {:induction false} AuthorityNamesTheFirst(authorities: Option<Authorities>, r: Record)
    ensures IsFirstFailure(Failure(CheckAuthority(authorities, r)), SignatureChecks(authorities, r))
  {
    var checks, checked := SignatureChecks(authorities, r), CheckAuthority(authorities, r);
    if checked.Err? {
      var k := match checked.error
        case MissingSignature(_) => 0
        case BadSignature(_) => 1
        case _ => 2;
      assert FailsFirst(checks, k) && checks[k].error == checked.error;
    }
  }

  lemma {:induction false} InsertNamesTheFirst(s: Store, r: Record)
    ensures IsFirstFailure(Failure(InsertInto(s, r).1), InsertChecks(s, r))
    ensures InsertInto(s, r).0 == if InsertInto(s, r).1.Ok? then Store(s.records[r.id := r], s.authorities) else s
  {
    hide CheckAuthority, SignatureChecks;
    AuthorityNamesTheFirst(s.authorities, r);
    var signatures, all, r1 := SignatureChecks(s.authorities, r), InsertChecks(s, r), InsertInto(s, r).1;
    var checked := CheckAuthority(s.authorities, r);
    if !all[0].passes {
      assert FailsFirst(all, 0);
    } else {
      var later := if checked.Err? then Failure(checked) else Failure(r1);
      if checked.Ok? && r1.Err? {
        var k := match r1.error case DuplicateId(_) => 0 case BrokenLineage(_, _) => 1 case _ => 2;
        assert FailsFirst(all[1 + |signatures|..], k) && all[1 + |signatures|..][k].error == r1.error;
      }
      FirstFailureOfSum(Failure(checked), later, signatures, all[1 + |signatures|..]);
      FirstFailureOfSum(None, later, all[..1], signatures + all[1 + |signatures|..]);
      assert all[..1] + (signatures + all[1 + |signatures|..]) == all;
    }
  }

  // What can stop the walk at `current`, having passed `chain`.
  ghost function StopChecks(s: Store, chain: seq<U32>, current: U32): seq<Check<LineageError>> {
    var found := [
      Check(current !in chain, LineageCycle(current)),
      Check(current in s.records || chain != [], UnknownRecord(current)),
      Check(current in s.records, BrokenLineage(if chain != [] then chain[|chain| - 1] else 0, current))];
    if current !in s.records then found
    else
      var r := s.records[current];
      found + (SignatureChecks(s.authorities, r)
        + [Check(r.parent.None? ==> r.procedure in {"factory", "anchor_reference"}, UnanchoredRoot(current))])
  }

  lemma {:induction false} FaultNamesTheFirst(s: Store, chain: seq<U32>, current: U32)
    ensures IsFirstFailure(Fault(s, chain, current), StopChecks(s, chain, current))
  {
    hide CheckAuthority, SignatureChecks;
    var all, fault := StopChecks(s, chain, current), Fault(s, chain, current);
    if current in chain {
      assert FailsFirst(all, 0);
    } else if current !in s.records {
      assert FailsFirst(all, if chain == [] then 1 else 2);
    } else {
      var r := s.records[current];
      AuthorityNamesTheFirst(s.authorities, r);
      var signatures, checked := SignatureChecks(s.authorities, r), CheckAuthority(s.authorities, r);
      var root := all[3 + |signatures|..];
      if fault.Some? && checked.Ok? {
        assert FailsFirst(root, 0) && root[0].error == fault.value;
      }
      FirstFailureOfSum(Failure(checked), fault, signatures, root);
      FirstFailureOfSum(None, fault, all[..3], signatures + root);
      assert all[..3] + (signatures + root) == all;
    }
  }

  // ---------------------------------------------------------------------
  // What the walk means
  // ---------------------------------------------------------------------

  function Following(chain: seq<U32>, i: nat): Option<U32> {
    if i + 1 < |chain| then Some(chain[i + 1]) else None
  }

  // A chain of stored, authorised records, each naming the next as its parent, from
  // id to an anchored root.
  ghost predicate IsAnchoredPath(s: Store, id: U32, chain: seq<U32>) {
    && chain != [] && chain[0] == id
    && (forall i :: 0 <= i < |chain| ==>
          && chain[i] in s.records
          && CheckAuthority(s.authorities, s.records[chain[i]]).Ok?
          && s.records[chain[i]].parent == Following(chain, i))
    && s.records[chain[|chain| - 1]].Anchored()
  }

  // The walk from id gets to `current` having passed `chain`.
  ghost predicate Reaches(s: Store, id: U32, chain: seq<U32>, current: U32) {
    if chain == [] then current == id
    else
      var init, last := chain[..|chain| - 1], chain[|chain| - 1];
      && Reaches(s, id, init, last) && Fault(s, init, last).None?
      && last in s.records && s.records[last].parent == Some(current)
  }

  lemma {:induction false} WalkContinues(s: Store, id: U32, chain: seq<U32>, current: U32)
    requires Reaches(s, id, chain, current)
    ensures VerifyLineage(s, id) == Walk(s, chain, current)
  {
    if chain != [] {
      var init, last := chain[..|chain| - 1], chain[|chain| - 1];
      WalkContinues(s, id, init, last);
      assert init + [last] == chain;
    }
  }

  // Where a walk stops.
  lemma {:induction false} WalkStops(s: Store, id: U32, chain: seq<U32>, current: U32)
      returns (end: seq<U32>, stop: U32)
    requires Reaches(s, id, chain, current)
    ensures Reaches(s, id, end, stop)
    ensures if Fault(s, end, stop).Some? then VerifyLineage(s, id) == Err(Fault(s, end, stop).value)
            else s.records[stop].parent.None? && VerifyLineage(s, id) == Ok(end + [stop])
    decreases Unvisited(s, chain)
  {
    WalkContinues(s, id, chain, current);
    if Fault(s, chain, current).Some? || s.records[current].parent.None? {
      end, stop := chain, current;
    } else {
      VisitingShrinks(s, chain, current);
      assert (chain + [current])[..|chain|] == chain;
      end, stop := WalkStops(s, id, chain + [current], s.records[current].parent.value);
    }
  }

  // Every error names what stops the one possible walk, and only that.
  lemma {:induction false} FailsIffStopped(s: Store, id: U32, e: LineageError)
    ensures VerifyLineage(s, id) == Err(e)
       <==> exists chain, current :: Reaches(s, id, chain, current) && Fault(s, chain, current) == Some(e)
  {
    if VerifyLineage(s, id) == Err(e) {
      var end, stop := WalkStops(s, id, [], id);
      assert Reaches(s, id, end, stop) && Fault(s, end, stop) == Some(e);
    }
    forall chain, current | Reaches(s, id, chain, current) && Fault(s, chain, current) == Some(e)
      ensures VerifyLineage(s, id) == Err(e)
    {
      WalkContinues(s, id, chain, current);
    }
  }

  lemma {:induction false} ReachesIsPath(s: Store, id: U32, chain: seq<U32>, current: U32)
    requires Reaches(s, id, chain, current)
    ensures (chain + [current])[0] == id
    ensures forall i :: 0 <= i < |chain| ==>
              && chain[i] in s.records && CheckAuthority(s.authorities, s.records[chain[i]]).Ok?
              && s.records[chain[i]].parent == Some((chain + [current])[i + 1])
  {
    hide CheckAuthority;
    if chain != [] {
      var init, last := chain[..|chain| - 1], chain[|chain| - 1];
      ReachesIsPath(s, id, init, last);
      assert init + [last] == chain;
    }
  }

  // A path that ends visits no record twice: the parents determine what follows.
  lemma {:induction false} PathsDoNotRepeat(s: Store, id: U32, chain: seq<U32>, i: nat, j: nat)
    requires IsAnchoredPath(s, id, chain) && i < j < |chain|
    ensures chain[i] != chain[j]
    decreases |chain| - j
  {
    hide CheckAuthority;
    assert s.records[chain[i]].parent == Following(chain, i) && s.records[chain[j]].parent == Following(chain, j);
    if chain[i] == chain[j] {
      PathsDoNotRepeat(s, id, chain, i + 1, j + 1);
    }
  }

  lemma {:induction false} PathIsReached(s: Store, id: U32, chain: seq<U32>, n: nat)
    requires IsAnchoredPath(s, id, chain) && n < |chain|
    ensures Reaches(s, id, chain[..n], chain[n]) && Fault(s, chain[..n], chain[n]).None?
  {
    hide CheckAuthority;
    forall k | 0 <= k < n
      ensures chain[k] != chain[n]
    {
      PathsDoNotRepeat(s, id, chain, k, n);
    }
    if n > 0 {
      PathIsReached(s, id, chain, n - 1);
      assert chain[..n][..n - 1] == chain[..n - 1];
    }
  }

  // The walk succeeds with exactly the parent path to an anchored root.
  lemma {:induction false} SucceedsIffAnchored(s: Store, id: U32, chain: seq<U32>)
    ensures VerifyLineage(s, id) == Ok(chain) <==> IsAnchoredPath(s, id, chain)
  {
    if IsAnchoredPath(s, id, chain) {
      var n := |chain| - 1;
      PathIsReached(s, id, chain, n);
      WalkContinues(s, id, chain[..n], chain[n]);
      assert chain[..n] + [chain[n]] == chain;
    }
    if VerifyLineage(s, id) == Ok(chain) {
      var end, stop := WalkStops(s, id, [], id);
      ReachesIsPath(s, id, end, stop);
    }
  }

  // In strict mode every record on a verified path, root included, carries a valid
  // signature by a key trusted for its modality.
  lemma {:induction false} StrictPathsAreSigned(s: Store, id: U32, chain: seq<U32>, link: U32)
    requires s.authorities.Some? && VerifyLineage(s, id) == Ok(chain) && link in chain
    ensures link in s.records
    ensures var r, a := s.records[link], s.authorities.value;
            r.signature.Some? && r.signer.Some? && a.verify(r) && a.trusted(r.signer.value, r.modality)
  {
    SucceedsIffAnchored(s, id, chain);
    hide VerifyLineage, Walk;
    var i :| 0 <= i < |chain| && chain[i] == link;
    assert CheckAuthority(s.authorities, s.records[chain[i]]).Ok?;
  }

  // ---------------------------------------------------------------------
  // Stores built by insertion
  // ---------------------------------------------------------------------

  ghost function StoreAfter(authorities: Option<Authorities>, inserts: seq<Record>): Store {
    if inserts == [] then Store(map[], authorities)
    else InsertInto(StoreAfter(authorities, inserts[..|inserts| - 1]), inserts[|inserts| - 1]).0
  }

  ghost predicate AllAnchored(s: Store) {
    forall id :: id in s.records ==>
      s.records[id].id == id && s.records[id].Valid() && VerifyLineage(s, id).Ok?
  }

  lemma {:induction false} InsertKeepsAnchored(s: Store, r: Record)
    requires AllAnchored(s)
    ensures AllAnchored(InsertInto(s, r).0)
  {
    hide CheckAuthority, Walk;
    var s' := InsertInto(s, r).0;
    if InsertInto(s, r).1.Ok? {
      forall id | id in s'.records
        ensures VerifyLineage(s', id).Ok?
      {
        if id != r.id {
          OldPathStays(s, r, id);
        } else if r.parent.None? {
          SucceedsIffAnchored(s', id, [id]);
        } else {
          OldPathStays(s, r, r.parent.value);
          var path := VerifyLineage(s', r.parent.value).value;
          SucceedsIffAnchored(s', r.parent.value, path);
          var longer := [id] + path;
          assert forall i :: 0 < i < |longer| ==> longer[i] == path[i - 1];
          SucceedsIffAnchored(s', id, longer);
        }
      }
    }
  }

  // Records are immutable, so a path stays a path.
  lemma {:induction false} OldPathStays(s: Store, r: Record, id: U32)
    requires id in s.records && VerifyLineage(s, id).Ok? && InsertInto(s, r).1.Ok?
    ensures VerifyLineage(InsertInto(s, r).0, id) == VerifyLineage(s, id)
  {
    hide CheckAuthority, Walk;
    var path := VerifyLineage(s, id).value;
    SucceedsIffAnchored(s, id, path);
    SucceedsIffAnchored(InsertInto(s, r).0, id, path);
  }

  // Insertion accepts exactly the valid records under a new id whose lineage verifies
  // once they are in.
  lemma {:induction false} InsertAcceptsIffLineageVerifies(s: Store, r: Record)
    requires AllAnchored(s)
    ensures InsertInto(s, r).1.Ok?
       <==> r.Valid() && r.id !in s.records && VerifyLineage(s.(records := s.records[r.id := r]), r.id).Ok?
  {
    hide Walk, CheckAuthority;
    var s' := s.(records := s.records[r.id := r]);
    if InsertInto(s, r).1.Ok? {
      InsertKeepsAnchored(s, r);
    }
    if VerifyLineage(s', r.id).Ok? {
      var path := VerifyLineage(s', r.id).value;
      SucceedsIffAnchored(s', r.id, path);
      assert r.parent == Following(path, 0);
      if r.parent.Some? {
        PathsDoNotRepeat(s', r.id, path, 0, 1);
      }
    }
  }

  // In either mode, every record that ever got in verifies: no cycle, no gap.
  lemma {:induction false} InsertedRecordsVerify(authorities: Option<Authorities>, inserts: seq<Record>, id: U32)
    requires id in StoreAfter(authorities, inserts).records
    ensures AllAnchored(StoreAfter(authorities, inserts))
    ensures VerifyLineage(StoreAfter(authorities, inserts), id).Ok?
  {
    InsertedIsAnchored(authorities, inserts);
  }

  lemma {:induction false} InsertedIsAnchored(authorities: Option<Authorities>, inserts: seq<Record>)
    ensures AllAnchored(StoreAfter(authorities, inserts))
  {
    hide VerifyLineage, InsertInto;
    if inserts != [] {
      InsertedIsAnchored(authorities, inserts[..|inserts| - 1]);
      InsertKeepsAnchored(StoreAfter(authorities, inserts[..|inserts| - 1]), inserts[|inserts| - 1]);
    }
  }

  // ---------------------------------------------------------------------
  // The store object
  // ---------------------------------------------------------------------

  predicate Usable(s: Store, r: Record, nodeId: U64, modality: string, nowNs: U64) {
    r.nodeId == nodeId && r.modality == modality && !r.IsExpired(nowNs) && VerifyLineage(s, r.id).Ok?
  }

  predicate Newer(a: Record, b: Record) {
    a.createdNs > b.createdNs || (a.createdNs == b.createdNs && a.id > b.id)
  }

  class CalibrationStore {
    const authorities: Option<Authorities>
    var records: Records

    constructor (authorities: Option<Authorities>)
      ensures State() == Store(map[], authorities)
    {
      this.authorities, records := authorities, map[];
    }

    function State(): Store
      reads this
    {
      Store(records, authorities)
    }

    method Insert(r: Record) returns (result: Result<(), LineageError>)
      modifies this
      ensures (State(), result) == InsertInto(old(State()), r)
      ensures records == if result.Ok? then old(records)[r.id := r] else old(records)
    {
      if !r.Valid() {
        return Err(InvalidRecord);
      }
      var _ :- CheckAuthority(authorities, r);
      if r.id in records {
        return Err(DuplicateId(r.id));
      }
      match r.parent {
        case Some(parent) =>
          if parent !in records {
            return Err(BrokenLineage(r.id, parent));
          }
        case None =>
          if !r.Anchored() {
            return Err(UnanchoredRoot(r.id));
          }
      }
      records := records[r.id := r];
      result := Ok(());
    }

    method Verify(id: U32) returns (result: Result<seq<U32>, LineageError>)
      ensures result == VerifyLineage(State(), id)
    {
      var chain, current := [], id;
      while true
        invariant VerifyLineage(State(), id) == Walk(State(), chain, current)
        decreases Unvisited(State(), chain)
      {
        if current in chain {
          return Err(LineageCycle(current));
        }
        if current !in records {
          return Err(if chain == [] then UnknownRecord(current) else BrokenLineage(chain[|chain| - 1], current));
        }
        var checked := CheckAuthority(authorities, records[current]);
        if checked.Err? {
          return Err(checked.error);
        }
        VisitingShrinks(State(), chain, current);
        chain := chain + [current];
        var parent := records[current].parent;
        if parent.None? {
          if !records[current].Anchored() {
            return Err(UnanchoredRoot(current));
          }
          return Ok(chain);
        }
        current := parent.value;
      }
    }

    // The newest usable record of a device and modality.
    method ActiveFor(nodeId: U64, modality: string, nowNs: U64) returns (best: Option<Record>)
      requires forall id :: id in records ==> records[id].id == id
      ensures best.Some? ==>
                && best.value.id in records && records[best.value.id] == best.value
                && best.value.nodeId == nodeId && best.value.modality == modality
                && nowNs < best.value.expiresNs && VerifyLineage(State(), best.value.id).Ok?
      ensures forall id :: id in records && records[id].nodeId == nodeId && records[id].modality == modality
                           && nowNs < records[id].expiresNs && VerifyLineage(State(), id).Ok? ==>
                && best.Some?
                && (|| records[id] == best.value || records[id].createdNs < best.value.createdNs
                    || (records[id].createdNs == best.value.createdNs && id < best.value.id))
    {
      hide VerifyLineage;
      best := None;
      var todo := records.Keys;
      while todo != {}
        invariant todo <= records.Keys
        invariant best.Some? ==>
                    best.value.id in records && records[best.value.id] == best.value
                    && Usable(State(), best.value, nodeId, modality, nowNs)
        invariant forall id :: id in records && id !in todo && Usable(State(), records[id], nodeId, modality, nowNs) ==>
                    best.Some? && (records[id] == best.value || Newer(best.value, records[id]))
      {
        var id :| id in todo;
        var r := records[id];
        if r.nodeId == nodeId && r.modality == modality && !r.IsExpired(nowNs) {
          var lineage := Verify(id);
          if lineage.Ok? && (best.None? || !Newer(best.value, r)) {
            best := Some(r);
          }
        }
        todo := todo - {id};
      }
    }
  }
}
