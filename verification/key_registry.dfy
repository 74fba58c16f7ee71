/** Model of src/keys/key-registry.ts: the in-memory registry of validator keys. */
module KeyRegistry {
  import opened Common

  datatype KeyState = Pending | Active | Retired

  datatype KeyRecord = KeyRecord(
    validatorId: string,
    publicKey: string,
    state: KeyState,
    registeredEpoch: int,
    activationEpoch: Option<int>,
    activationSlot: Option<int>,
    deactivationEpoch: Option<int>,
    deactivationSlot: Option<int>,
    retirementEpoch: Option<int>,
    signingEnabled: bool)

  datatype RegistryError =
    | InvalidKeyRecord
    | DuplicateKey(publicKey: string)
    | ActiveKeyExists
    | PendingKeyExists
    | ActivationConflict
    | InvalidOldKey
    | InvalidNewKey
    | UnknownKey
    | KeyNotDeactivated
    | RegistryInconsistent

  // The characters String.prototype.trim removes.
  predicate IsWhiteSpace(c: char) {
    || '\t' <= c <= '\r'
    || c == ' '
    || c == '\U{A0}'
    || c == '\U{1680}'
    || '\U{2000}' <= c <= '\U{200A}'
    || c == '\U{2028}' || c == '\U{2029}' || c == '\U{202F}' || c == '\U{205F}'
    || c == '\U{3000}' || c == '\U{FEFF}'
  }

  // White space and line ends, by code point.
  lemma WhiteSpaceExactly(c: char)
    ensures IsWhiteSpace(c) <==> c as int in {9, 10, 11, 12, 13, 32, 160, 5760, 8192, 8193, 8194, 8195, 8196, 8197, 8198, 8199,
                                              8200, 8201, 8202, 8232, 8233, 8239, 8287, 12288, 65279}
  {
  }

  predicate IsBlank(s: string) {
    forall i :: 0 <= i < |s| ==> IsWhiteSpace(s[i])
  }

  /** The three maps of the registry, as one value. */
  datatype Registry = Registry(
    keys: map<string, KeyRecord>,
    current: map<string, string>,
    pending: map<string, string>)
  {
    predicate ValidRegistration(validatorId: string, publicKey: string, registeredEpoch: int) {
      !IsBlank(validatorId) && !IsBlank(publicKey) && IsProtocolNumber(registeredEpoch)
    }

    function RegisterActive(validatorId: string, publicKey: string, registeredEpoch: int,
                            activationEpoch: Option<int>, activationSlot: Option<int>): Result<Registry, RegistryError>
    {
      var epoch := if activationEpoch.Some? then activationEpoch.value else registeredEpoch;
      var slot := if activationSlot.Some? then activationSlot.value else 0;
      if !ValidRegistration(validatorId, publicKey, registeredEpoch) || !IsProtocolNumber(epoch) || !IsProtocolNumber(slot) then
        Err(InvalidKeyRecord)
      else if publicKey in keys then
        Err(DuplicateKey(publicKey))
      else if validatorId in current then
        Err(ActiveKeyExists)
      else
        var record := KeyRecord(validatorId, publicKey, Active, registeredEpoch, Some(epoch), Some(slot),
                                None, None, None, true);
        Ok(this.(keys := keys[publicKey := record], current := current[validatorId := publicKey]))
    }

    function ReservePending(validatorId: string, publicKey: string, registeredEpoch: int): Result<Registry, RegistryError> {
      if !ValidRegistration(validatorId, publicKey, registeredEpoch) then
        Err(InvalidKeyRecord)
      else if publicKey in keys then
        Err(DuplicateKey(publicKey))
      else if validatorId in pending then
        Err(PendingKeyExists)
      else
        var record := KeyRecord(validatorId, publicKey, Pending, registeredEpoch, None, None, None, None, None, false);
        Ok(this.(keys := keys[publicKey := record], pending := pending[validatorId := publicKey]))
    }

    predicate CanRelease(validatorId: string, publicKey: string) {
      && publicKey in keys
      && keys[publicKey].validatorId == validatorId
      && keys[publicKey].state == Pending
      && validatorId in pending
      && pending[validatorId] == publicKey
    }

    function ReleasePending(validatorId: string, publicKey: string): Registry {
      if CanRelease(validatorId, publicKey) then
        this.(keys := keys - {publicKey}, pending := pending - {validatorId})
      else
        this
    }

    predicate IsCurrent(validatorId: string, publicKey: string) {
      validatorId in current && current[validatorId] == publicKey
    }

    function GetCurrent(validatorId: string): Option<string> {
      if validatorId in current then Some(current[validatorId]) else None
    }

    // Both keys already stand as a completed activation leaves them.
    predicate AlreadyActivated(validatorId: string, oldKey: string, newKey: string) {
      && oldKey in keys && newKey in keys
      && keys[oldKey].validatorId == validatorId && keys[newKey].validatorId == validatorId
      && keys[oldKey].state == Active && !keys[oldKey].signingEnabled
      && keys[newKey].state == Active && keys[newKey].signingEnabled
      && IsCurrent(validatorId, newKey)
    }

    predicate SameCoordinates(oldKey: string, newKey: string, epoch: int, slot: int)
      requires oldKey in keys && newKey in keys
    {
      && keys[oldKey].deactivationEpoch == Some(epoch) && keys[oldKey].deactivationSlot == Some(slot)
      && keys[newKey].activationEpoch == Some(epoch) && keys[newKey].activationSlot == Some(slot)
    }

    function ActivateRotation(validatorId: string, oldKey: string, newKey: string,
                              epoch: int, slot: int): Result<Registry, RegistryError>
    {
      if !IsProtocolNumber(epoch) || !IsProtocolNumber(slot) then
        Err(InvalidKeyRecord)
      else if AlreadyActivated(validatorId, oldKey, newKey) then
        if SameCoordinates(oldKey, newKey, epoch, slot) then Ok(this) else Err(ActivationConflict)
      else if oldKey !in keys || keys[oldKey].validatorId != validatorId || keys[oldKey].state != Active then
        Err(InvalidOldKey)
      else if !keys[oldKey].signingEnabled || !IsCurrent(validatorId, oldKey) then
        Err(InvalidOldKey)
      else if newKey !in keys || keys[newKey].validatorId != validatorId || keys[newKey].state != Pending then
        Err(InvalidNewKey)
      else if !(validatorId in pending && pending[validatorId] == newKey) then
        Err(InvalidNewKey)
      else
        var deactivated := keys[oldKey].(signingEnabled := false, deactivationEpoch := Some(epoch), deactivationSlot := Some(slot));
        var activated := keys[newKey].(state := Active, signingEnabled := true,
                                       activationEpoch := Some(epoch), activationSlot := Some(slot));
        Ok(Registry(keys[oldKey := deactivated][newKey := activated],
                    current[validatorId := newKey],
                    pending - {validatorId}))
    }

    function Retire(validatorId: string, publicKey: string, epoch: int): Result<Registry, RegistryError> {
      if !IsProtocolNumber(epoch) then
        Err(InvalidKeyRecord)
      else if publicKey !in keys || keys[publicKey].validatorId != validatorId then
        Err(UnknownKey)
      else if keys[publicKey].state == Retired then
        Ok(this)
      else if keys[publicKey].state != Active || keys[publicKey].signingEnabled || keys[publicKey].deactivationSlot.None? then
        Err(KeyNotDeactivated)
      else
        Ok(this.(keys := keys[publicKey := keys[publicKey].(state := Retired, signingEnabled := false,
                                                            retirementEpoch := Some(epoch))]))
    }

    function GetKey(publicKey: string): Option<KeyRecord> {
      if publicKey in keys then Some(keys[publicKey]) else None
    }

    function CurrentSigningKey(validatorId: string): Option<KeyRecord> {
      if validatorId in current && current[validatorId] != "" then GetKey(current[validatorId]) else None
    }

    predicate CurrentOk(v: string)
      requires v in current
    {
      && current[v] in keys && keys[current[v]].validatorId == v
      && keys[current[v]].state == Active && keys[current[v]].signingEnabled
    }

    predicate PendingOk(v: string)
      requires v in pending
    {
      pending[v] in keys && keys[pending[v]].validatorId == v && keys[pending[v]].state == Pending
    }

    // What assertConsistent checks.
    predicate IndexesConsistent() {
      && (forall v :: v in current ==> CurrentOk(v))
      && (forall v :: v in pending ==> PendingOk(v))
    }

    predicate KeyOk(k: string)
      requires k in keys
    {
      && keys[k].publicKey == k && k != "" && keys[k].validatorId != "" && WellFormed(keys[k])
      && (keys[k].signingEnabled ==> IsCurrent(keys[k].validatorId, k))
      && (keys[k].state == Pending ==> keys[k].validatorId in pending && pending[keys[k].validatorId] == k)
    }

    /** The full agreement of the three maps: assertConsistent and its converse. */
    predicate Valid() {
      IndexesConsistent() && forall k :: k in keys ==> KeyOk(k)
    }
  }

  predicate WellFormed(record: KeyRecord) {
    && (record.signingEnabled ==> record.state == Active)
    && (record.state == Active && !record.signingEnabled ==> record.deactivationSlot.Some? && record.deactivationEpoch.Some?)
  }

  const EMPTY_REGISTRY := Registry(map[], map[], map[])

  // ---------------------------------------------------------------- lemmas

  // No operation breaks the agreement of the maps.
  lemma RegisterActiveKeepsValid(r: Registry, v: string, k: string, e: int, ae: Option<int>, slot: Option<int>)
    requires r.Valid()
    ensures var n := r.RegisterActive(v, k, e, ae, slot); n.Ok? ==> n.value.Valid()
  {
    if r.RegisterActive(v, k, e, ae, slot).Ok? {
      var next := r.RegisterActive(v, k, e, ae, slot).value;
      forall x | x in next.keys ensures next.KeyOk(x) { if x != k { assert r.KeyOk(x); } }
      forall w | w in next.current ensures next.CurrentOk(w) { if w != v { assert r.CurrentOk(w); } }
      forall w | w in next.pending ensures next.PendingOk(w) { assert r.PendingOk(w); }
    }
  }

  lemma ReservePendingKeepsValid(r: Registry, v: string, k: string, e: int)
    requires r.Valid()
    ensures var n := r.ReservePending(v, k, e); n.Ok? ==> n.value.Valid()
  {
    if r.ReservePending(v, k, e).Ok? {
      var next := r.ReservePending(v, k, e).value;
      forall x | x in next.keys ensures next.KeyOk(x) { if x != k { assert r.KeyOk(x); } }
      forall w | w in next.current ensures next.CurrentOk(w) { assert r.CurrentOk(w); }
      forall w | w in next.pending ensures next.PendingOk(w) { if w != v { assert r.PendingOk(w); } }
    }
  }

  lemma ActivateKeepsValid(r: Registry, v: string, oldKey: string, newKey: string, epoch: int, slot: int)
    requires r.Valid()
    ensures var n := r.ActivateRotation(v, oldKey, newKey, epoch, slot); n.Ok? ==> n.value.Valid()
  {
    var n := r.ActivateRotation(v, oldKey, newKey, epoch, slot);
    if n.Ok? && !r.AlreadyActivated(v, oldKey, newKey) {
      var next := n.value;
      forall x | x in next.keys ensures next.KeyOk(x) { assert r.KeyOk(x); }
      forall w | w in next.current ensures next.CurrentOk(w) { if w != v { assert r.CurrentOk(w); } }
      forall w | w in next.pending ensures next.PendingOk(w) { assert r.PendingOk(w); }
    }
  }

  lemma RetireKeepsValid(r: Registry, v: string, k: string, epoch: int)
    requires r.Valid()
    ensures var n := r.Retire(v, k, epoch); n.Ok? ==> n.value.Valid()
  {
    var n := r.Retire(v, k, epoch);
    if n.Ok? {
      var next := n.value;
      forall x | x in next.keys ensures next.KeyOk(x) { assert r.KeyOk(x); }
      forall w | w in next.current ensures next.CurrentOk(w) { assert r.CurrentOk(w); }
      forall w | w in next.pending ensures next.PendingOk(w) { assert r.PendingOk(w); }
    }
  }

  // Does a key of this validator sign, or wait to?
  ghost predicate HasSigningKey(r: Registry, v: string) {
    exists k :: k in r.keys && r.keys[k].validatorId == v && r.keys[k].signingEnabled
  }

  ghost predicate HasPendingKey(r: Registry, v: string) {
    exists k :: k in r.keys && r.keys[k].validatorId == v && r.keys[k].state == Pending
  }

  lemma IndexesFindKeys(r: Registry, v: string)
    requires r.Valid()
    ensures v in r.current <==> HasSigningKey(r, v)
    ensures v in r.pending <==> HasPendingKey(r, v)
  {
    if v in r.current { assert r.CurrentOk(v); }
    if v in r.pending { assert r.PendingOk(v); }
    if HasSigningKey(r, v) {
      var k :| k in r.keys && r.keys[k].validatorId == v && r.keys[k].signingEnabled;
      assert r.KeyOk(k);
    }
    if HasPendingKey(r, v) {
      var k :| k in r.keys && r.keys[k].validatorId == v && r.keys[k].state == Pending;
      assert r.KeyOk(k);
    }
  }

  /**
   A key can be registered exactly when it is new, its record is valid and no key of
   the validator signs; it then signs from its activation on, and no other key changes.
   */
  lemma RegisterActiveIff(r: Registry, v: string, k: string, e: int, ae: Option<int>, slot: Option<int>)
    requires r.Valid()
    ensures var n := r.RegisterActive(v, k, e, ae, slot);
            var from, start := if ae.Some? then ae.value else e, if slot.Some? then slot.value else 0;
            && (n.Ok? <==> !IsBlank(v) && !IsBlank(k) && IsProtocolNumber(e) && IsProtocolNumber(from) && IsProtocolNumber(start)
                           && k !in r.keys && !HasSigningKey(r, v))
            && (n.Ok? ==> n.value.keys == r.keys[k := KeyRecord(v, k, Active, e, Some(from), Some(start), None, None, None, true)]
                          && n.value.GetCurrent(v) == Some(k)
                          && forall w :: w != v ==> n.value.GetCurrent(w) == r.GetCurrent(w))
  {
    IndexesFindKeys(r, v);
  }

  /** A key can be reserved exactly when it is new, its record is valid and no other key of the validator is pending. */
  lemma ReservePendingIff(r: Registry, v: string, k: string, e: int)
    requires r.Valid()
    ensures var n := r.ReservePending(v, k, e);
            && (n.Ok? <==> !IsBlank(v) && !IsBlank(k) && IsProtocolNumber(e) && k !in r.keys && !HasPendingKey(r, v))
            && (n.Ok? ==> n.value.keys == r.keys[k := KeyRecord(v, k, Pending, e, None, None, None, None, None, false)]
                          && n.value.current == r.current)
  {
    IndexesFindKeys(r, v);
  }

  /** Exactly the pending keys can be released, by their own validator. */
  lemma ReleaseIff(r: Registry, v: string, k: string)
    requires r.Valid()
    ensures r.CanRelease(v, k) <==> k in r.keys && r.keys[k].validatorId == v && r.keys[k].state == Pending
    ensures r.ReleasePending(v, k).keys == if r.CanRelease(v, k) then r.keys - {k} else r.keys
    ensures r.ReleasePending(v, k).current == r.current
    ensures r.CanRelease(v, k) ==> !HasPendingKey(r.ReleasePending(v, k), v)
  {
    if k in r.keys { assert r.KeyOk(k); }
    if r.CanRelease(v, k) {
      var next := r.ReleasePending(v, k);
      forall x | x in next.keys && next.keys[x].validatorId == v ensures next.keys[x].state != Pending { assert r.KeyOk(x); }
    }
  }

  /**
   Signing moves from the old key to the new one exactly when the old one signs for the
   validator and the new one is its pending key; both records get the coordinates, and
   no other key changes. A call that finds just that done changes nothing.
   */
  lemma ActivateIff(r: Registry, v: string, oldKey: string, newKey: string, epoch: int, slot: int)
    requires r.Valid() && IsProtocolNumber(epoch) && IsProtocolNumber(slot)
    ensures var n := r.ActivateRotation(v, oldKey, newKey, epoch, slot);
            var ready := oldKey in r.keys && newKey in r.keys && r.keys[oldKey].validatorId == v && r.keys[newKey].validatorId == v
                         && r.keys[oldKey].signingEnabled && r.keys[newKey].state == Pending;
            var done := oldKey in r.keys && newKey in r.keys && r.keys[oldKey].validatorId == v && r.keys[newKey].validatorId == v
                        && r.keys[oldKey].state == Active && !r.keys[oldKey].signingEnabled && r.keys[newKey].signingEnabled;
            && (n.Ok? <==> ready || (done && r.SameCoordinates(oldKey, newKey, epoch, slot)))
            && (done && n.Ok? ==> n.value == r)
            && (ready ==>
                  && n.value.keys == r.keys[oldKey := r.keys[oldKey].(signingEnabled := false, deactivationEpoch := Some(epoch),
                                                                      deactivationSlot := Some(slot))]
                                           [newKey := r.keys[newKey].(state := Active, signingEnabled := true,
                                                                      activationEpoch := Some(epoch), activationSlot := Some(slot))]
                  && n.value.current == r.current[v := newKey] && !HasPendingKey(n.value, v))
  {
    if oldKey in r.keys { assert r.KeyOk(oldKey); }
    if newKey in r.keys { assert r.KeyOk(newKey); }
    if r.ActivateRotation(v, oldKey, newKey, epoch, slot).Ok? && newKey in r.keys && r.keys[newKey].state == Pending {
      var next := r.ActivateRotation(v, oldKey, newKey, epoch, slot).value;
      forall x | x in next.keys && next.keys[x].validatorId == v ensures next.keys[x].state != Pending {
        assert r.KeyOk(x);
      }
    }
  }

  /** Exactly the validator's own keys that no longer sign can be retired, once they were active. */
  lemma RetireIff(r: Registry, v: string, k: string, epoch: int)
    requires r.Valid()
    ensures var n := r.Retire(v, k, epoch);
            && (n.Ok? <==> IsProtocolNumber(epoch) && k in r.keys && r.keys[k].validatorId == v
                           && !r.keys[k].signingEnabled && r.keys[k].state != Pending)
            && (n.Ok? && r.keys[k].state == Retired ==> n.value == r)
            && (n.Ok? && r.keys[k].state == Active ==>
                  n.value == r.(keys := r.keys[k := r.keys[k].(state := Retired, retirementEpoch := Some(epoch))]))
  {
    if k in r.keys { assert r.KeyOk(k); }
  }

  // A released reservation leaves the registry exactly as it was before it was made.
  lemma ReleaseUndoesReserve(r: Registry, v: string, k: string, epoch: int)
    requires r.ReservePending(v, k, epoch).Ok?
    ensures r.ReservePending(v, k, epoch).value.CanRelease(v, k)
    ensures r.ReservePending(v, k, epoch).value.ReleasePending(v, k) == r
  {
    var reserved := r.ReservePending(v, k, epoch).value;
    assert reserved.keys - {k} == r.keys;
    assert reserved.pending - {v} == r.pending;
  }

  // Activation is idempotent for the same coordinates and refuses all others.
  lemma ActivationIsIdempotent(r: Registry, v: string, oldKey: string, newKey: string,
                               epoch: int, slot: int, epoch2: int, slot2: int)
    requires r.ActivateRotation(v, oldKey, newKey, epoch, slot).Ok?
    requires IsProtocolNumber(epoch2) && IsProtocolNumber(slot2)
    ensures var next := r.ActivateRotation(v, oldKey, newKey, epoch, slot).value;
            next.ActivateRotation(v, oldKey, newKey, epoch2, slot2)
            == if epoch2 == epoch && slot2 == slot then Ok(next) else Err(ActivationConflict)
  {
  }

  lemma AtMostOneSigningKey(r: Registry, k1: string, k2: string)
    requires r.Valid()
    requires k1 in r.keys && k2 in r.keys
    requires r.keys[k1].signingEnabled && r.keys[k2].signingEnabled
    requires r.keys[k1].validatorId == r.keys[k2].validatorId
    ensures k1 == k2
  {
  }

  // ---------------------------------------------------------------- the class

  class KeyRegistry {
    var keysByPublicKey: map<string, KeyRecord>
    var currentSigningKeyByValidator: map<string, string>
    var pendingKeyByValidator: map<string, string>

    function View(): Registry
      reads this
    {
      Registry(keysByPublicKey, currentSigningKeyByValidator, pendingKeyByValidator)
    }

    constructor ()
      ensures View() == EMPTY_REGISTRY
    {
      keysByPublicKey := map[];
      currentSigningKeyByValidator := map[];
      pendingKeyByValidator := map[];
    }

    // A failed call leaves View() unchanged; a successful one returns the stored record.
    method RegisterActiveKey(validatorId: string, publicKey: string, registeredEpoch: int,
                             activationEpoch: Option<int>, activationSlot: Option<int>)
      returns (r: Result<KeyRecord, RegistryError>)
      modifies this
      ensures var next := old(View()).RegisterActive(validatorId, publicKey, registeredEpoch, activationEpoch, activationSlot);
              Outcome(old(View()), next, publicKey, View(), r)
    {
      if IsBlank(validatorId) || IsBlank(publicKey) || !IsProtocolNumber(registeredEpoch) {
        return Err(InvalidKeyRecord);
      }
      var epoch := if activationEpoch.Some? then activationEpoch.value else registeredEpoch;
      var slot := if activationSlot.Some? then activationSlot.value else 0;
      if !IsProtocolNumber(epoch) || !IsProtocolNumber(slot) {
        return Err(InvalidKeyRecord);
      }
      if publicKey in keysByPublicKey {
        return Err(DuplicateKey(publicKey));
      }
      if validatorId in currentSigningKeyByValidator {
        return Err(ActiveKeyExists);
      }
      var record := KeyRecord(validatorId, publicKey, Active, registeredEpoch, Some(epoch), Some(slot), None, None, None, true);
      keysByPublicKey := keysByPublicKey[record.publicKey := record];
      currentSigningKeyByValidator := currentSigningKeyByValidator[record.validatorId := record.publicKey];
      return Ok(record);
    }

    method ReservePendingKey(validatorId: string, publicKey: string, registeredEpoch: int)
      returns (r: Result<KeyRecord, RegistryError>)
      modifies this
      ensures var next := old(View()).ReservePending(validatorId, publicKey, registeredEpoch);
              Outcome(old(View()), next, publicKey, View(), r)
    {
      if IsBlank(validatorId) || IsBlank(publicKey) || !IsProtocolNumber(registeredEpoch) {
        return Err(InvalidKeyRecord);
      }
      if publicKey in keysByPublicKey {
        return Err(DuplicateKey(publicKey));
      }
      if validatorId in pendingKeyByValidator {
        return Err(PendingKeyExists);
      }
      var record := KeyRecord(validatorId, publicKey, Pending, registeredEpoch, None, None, None, None, None, false);
      keysByPublicKey := keysByPublicKey[record.publicKey := record];
      pendingKeyByValidator := pendingKeyByValidator[record.validatorId := record.publicKey];
      return Ok(record);
    }

    method ReleasePendingKey(validatorId: string, publicKey: string) returns (released: bool)
      modifies this
      ensures released == old(View()).CanRelease(validatorId, publicKey)
      ensures View() == old(View()).ReleasePending(validatorId, publicKey)
    {
      if publicKey !in keysByPublicKey {
        return false;
      }
      var record := keysByPublicKey[publicKey];
      if record.validatorId != validatorId || record.state != Pending
         || validatorId !in pendingKeyByValidator || pendingKeyByValidator[validatorId] != publicKey {
        return false;
      }
      keysByPublicKey := keysByPublicKey - {publicKey};
      pendingKeyByValidator := pendingKeyByValidator - {validatorId};
      return true;
    }

    method ActivateRotation(validatorId: string, oldPublicKey: string, newPublicKey: string, epoch: int, slot: int)
      returns (r: Result<(KeyRecord, KeyRecord), RegistryError>)
      modifies this
      ensures var next := old(View()).ActivateRotation(validatorId, oldPublicKey, newPublicKey, epoch, slot);
              match next
              case Err(e) => r == Err(e) && View() == old(View())
              case Ok(s) => View() == s && oldPublicKey in s.keys && newPublicKey in s.keys
                            && r == Ok((s.keys[oldPublicKey], s.keys[newPublicKey]))
    {
      if !IsProtocolNumber(epoch) || !IsProtocolNumber(slot) {
        return Err(InvalidKeyRecord);
      }
      if View().AlreadyActivated(validatorId, oldPublicKey, newPublicKey) {
        var o, n := keysByPublicKey[oldPublicKey], keysByPublicKey[newPublicKey];
        if o.deactivationEpoch != Some(epoch) || o.deactivationSlot != Some(slot)
           || n.activationEpoch != Some(epoch) || n.activationSlot != Some(slot) {
          return Err(ActivationConflict);
        }
        return Ok((o, n));
      }
      if oldPublicKey !in keysByPublicKey || keysByPublicKey[oldPublicKey].validatorId != validatorId
         || keysByPublicKey[oldPublicKey].state != Active {
        return Err(InvalidOldKey);
      }
      var oldKey := keysByPublicKey[oldPublicKey];
      if !oldKey.signingEnabled || !View().IsCurrent(validatorId, oldPublicKey) {
        return Err(InvalidOldKey);
      }
      if newPublicKey !in keysByPublicKey || keysByPublicKey[newPublicKey].validatorId != validatorId
         || keysByPublicKey[newPublicKey].state != Pending {
        return Err(InvalidNewKey);
      }
      var newKey := keysByPublicKey[newPublicKey];
      if validatorId !in pendingKeyByValidator || pendingKeyByValidator[validatorId] != newPublicKey {
        return Err(InvalidNewKey);
      }
      var deactivatedOldKey := oldKey.(signingEnabled := false, deactivationEpoch := Some(epoch), deactivationSlot := Some(slot));
      var activatedNewKey := newKey.(state := Active, signingEnabled := true,
                                     activationEpoch := Some(epoch), activationSlot := Some(slot));
      keysByPublicKey := keysByPublicKey[oldPublicKey := deactivatedOldKey];
      keysByPublicKey := keysByPublicKey[newPublicKey := activatedNewKey];
      currentSigningKeyByValidator := currentSigningKeyByValidator[validatorId := newPublicKey];
      pendingKeyByValidator := pendingKeyByValidator - {validatorId};
      return Ok((deactivatedOldKey, activatedNewKey));
    }

    method RetireKey(validatorId: string, publicKey: string, retirementEpoch: int)
      returns (r: Result<KeyRecord, RegistryError>)
      modifies this
      ensures var next := old(View()).Retire(validatorId, publicKey, retirementEpoch);
              Outcome(old(View()), next, publicKey, View(), r)
    {
      if !IsProtocolNumber(retirementEpoch) {
        return Err(InvalidKeyRecord);
      }
      if publicKey !in keysByPublicKey || keysByPublicKey[publicKey].validatorId != validatorId {
        return Err(UnknownKey);
      }
      var record := keysByPublicKey[publicKey];
      if record.state == Retired {
        return Ok(record);
      }
      if record.state != Active || record.signingEnabled || record.deactivationSlot.None? {
        return Err(KeyNotDeactivated);
      }
      var retired := record.(state := Retired, signingEnabled := false, retirementEpoch := Some(retirementEpoch));
      keysByPublicKey := keysByPublicKey[publicKey := retired];
      return Ok(retired);
    }

    // The two loops walk the index maps; they accept exactly the registries
    // whose indexes agree with the key table.
    method AssertConsistent() returns (r: Result<(), RegistryError>)
      ensures r.Ok? <==> View().IndexesConsistent()
      ensures r.Err? ==> r.error == RegistryInconsistent
    {
      var todo := currentSigningKeyByValidator.Keys;
      while todo != {}
        invariant todo <= currentSigningKeyByValidator.Keys
        invariant forall v :: v in currentSigningKeyByValidator && v !in todo ==> CurrentEntryConsistent(v)
        decreases todo
      {
        var v :| v in todo;
        if !CurrentEntryConsistent(v) {
          return Err(RegistryInconsistent);
        }
        todo := todo - {v};
      }
      todo := pendingKeyByValidator.Keys;
      while todo != {}
        invariant todo <= pendingKeyByValidator.Keys
        invariant forall v :: v in pendingKeyByValidator && v !in todo ==> PendingEntryConsistent(v)
        decreases todo
      {
        var v :| v in todo;
        if !PendingEntryConsistent(v) {
          return Err(RegistryInconsistent);
        }
        todo := todo - {v};
      }
      assert forall v :: v in currentSigningKeyByValidator ==> CurrentEntryConsistent(v);
      assert forall v :: v in pendingKeyByValidator ==> PendingEntryConsistent(v);
      return Ok(());
    }

    predicate CurrentEntryConsistent(v: string)
      requires v in currentSigningKeyByValidator
      reads this
    {
      var k := currentSigningKeyByValidator[v];
      k in keysByPublicKey && keysByPublicKey[k].validatorId == v
      && keysByPublicKey[k].state == Active && keysByPublicKey[k].signingEnabled
    }

    predicate PendingEntryConsistent(v: string)
      requires v in pendingKeyByValidator
      reads this
    {
      var k := pendingKeyByValidator[v];
      k in keysByPublicKey && keysByPublicKey[k].validatorId == v && keysByPublicKey[k].state == Pending
    }
  }

  predicate Outcome(before: Registry, next: Result<Registry, RegistryError>, publicKey: string,
                    after: Registry, r: Result<KeyRecord, RegistryError>)
  {
    match next
    case Err(e) => r == Err(e) && after == before
    case Ok(s) => after == s && publicKey in s.keys && r == Ok(s.keys[publicKey])
  }
}
