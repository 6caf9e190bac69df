/** Offline rotation of the vault key, against a disk that may stop being written at any point. */
module VaultRotation {
  import opened Wrappers

  /** A derived key; scrypt is taken to be injective in the passphrase, the salt and the cost. */
  datatype Key = Key(passphrase: string, salt: nat, cost: nat)

  /** An authenticated ciphertext, or text that is not shaped like one. */
  datatype Blob = Sealed(key: Key, iv: nat, plaintext: string) | Shapeless(text: string)

  /** Authenticated decryption: only the very key gives anything back. */
  function Decrypt(key: Key, blob: Blob): Option<string> {
    if blob.Sealed? && blob.key == key then Some(blob.plaintext) else None
  }

  function Encrypt(key: Key, iv: nat, plaintext: string): Blob { Sealed(key, iv, plaintext) }

  const KEY_CHECK := "openheaders-vault-key-check"
  const COST := 32768

  datatype KeyState = NoKey | NotAKeyFile | KeyFile(salt: nat, cost: nat, check: Blob)

  datatype Slot = Text(blob: Blob) | NotText

  /** The `secrets` member: an object of slots, or whatever else is there. */
  datatype Secrets = Bucket(slots: seq<(string, Slot)>) | NoBucket(other: string)

  datatype Envelope = Envelope(secrets: Secrets, fields: map<string, string>)

  datatype Storage = Missing | Torn | NotAnObject | Stored(envelope: Envelope)

  /** What the data dir holds; readers never look at the temporary files. */
  datatype Disk = Disk(storage: Storage, key: KeyState, preRotate: Storage, storageTmp: Storage, keyTmp: KeyState)

  datatype Error =
    | NothingToRotate | BadKeyFile | WrongPassphrase | CorruptKeyFile
    | UnreadableStorage | UnreadableSlot

  datatype Result<T> = Ok(value: T) | Err(error: Error)

  // Keys

  function Verify(file: KeyState, passphrase: string): Result<Key>
    requires file.KeyFile?
  {
    var key := Key(passphrase, file.salt, file.cost);
    var revealed := Decrypt(key, file.check);
    if revealed.None? then Err(WrongPassphrase)
    else if revealed.value != KEY_CHECK then Err(CorruptKeyFile)
    else Ok(key)
  }

  /** Unlocking for rotation never invents the key it claims to replace. */
  function Unlock(file: KeyState, passphrase: string): Result<Key> {
    match file
    case NoKey => Err(NothingToRotate)
    case NotAKeyFile => Err(BadKeyFile)
    case KeyFile(_, _, _) => Verify(file, passphrase)
  }

  function Mint(passphrase: string, salt: nat, iv: nat): KeyState {
    KeyFile(salt, COST, Encrypt(Key(passphrase, salt, COST), iv, KEY_CHECK))
  }

  // Contents

  /** The slots revealed with a key; entries that are not text are skipped. */
  function OpenSlots(slots: seq<(string, Slot)>, key: Key): Option<seq<(string, string)>> {
    if slots == [] then Some([])
    else
      var later := OpenSlots(slots[1..], key);
      if slots[0].1.NotText? then later
      else
        var first := Decrypt(key, slots[0].1.blob);
        if first.None? || later.None? then None else Some([(slots[0].0, first.value)] + later.value)
  }

  datatype PlainSecrets = Opened(slots: seq<(string, string)>) | NotOpened(other: string)

  /** What the envelope means to whoever holds the key: every secret's plaintext, and every other field. */
  datatype Plain = Plain(secrets: PlainSecrets, fields: map<string, string>)

  function Contents(envelope: Envelope, key: Key): Option<Plain> {
    if envelope.secrets.NoBucket? then Some(Plain(NotOpened(envelope.secrets.other), envelope.fields))
    else
      var slots := OpenSlots(envelope.secrets.slots, key);
      if slots.None? then None else Some(Plain(Opened(slots.value), envelope.fields))
  }

  /** `slots` under the new key, the i-th text slot with the i-th fresh IV. */
  function Resealed(slots: seq<(string, string)>, key: Key, iv: nat -> nat): (r: seq<(string, Slot)>)
    ensures |r| == |slots|
  {
    seq(|slots|, i requires 0 <= i < |slots| => (slots[i].0, Text(Encrypt(key, iv(i), slots[i].1))))
  }

  /** The IVs left once the key file has taken the first. */
  function Later(iv: nat -> nat): nat -> nat { (i: nat) => iv(i + 1) }

  /** The new `secrets` member. */
  function Reencrypted(secrets: Secrets, oldKey: Key, newKey: Key, iv: nat -> nat): Option<Secrets> {
    if secrets.NoBucket? then Some(secrets)
    else
      var slots := OpenSlots(secrets.slots, oldKey);
      if slots.None? then None else Some(Bucket(Resealed(slots.value, newKey, iv)))
  }

  method ReencryptSlots(slots: seq<(string, Slot)>, oldKey: Key, newKey: Key, iv: nat -> nat)
    returns (r: Option<seq<(string, Slot)>>)
    ensures r == var revealed := OpenSlots(slots, oldKey);
                 if revealed.None? then None else Some(Resealed(revealed.value, newKey, iv))
  {
    hide OpenSlots;
    var next: seq<(string, Slot)> := [];
    ghost var done: seq<(string, string)> := [];
    OpenedSoFarStarts(slots, oldKey);
    for i := 0 to |slots|
      invariant next == Resealed(done, newKey, iv) && OpenedSoFar(slots, oldKey, i, done)
    {
      OpenedSoFarStep(slots, oldKey, i, done);
      if slots[i].1.NotText? { continue; }
      var plaintext := Decrypt(oldKey, slots[i].1.blob);
      if plaintext.None? { return None; }
      next := next + [(slots[i].0, Text(Encrypt(newKey, iv(|next|), plaintext.value)))];
      done := done + [(slots[i].0, plaintext.value)];
    }
    OpenedSoFarEnds(slots, oldKey, done);
    return Some(next);
  }

  /** After `i` entries the loop has opened `done`, and the whole opens if the rest does. */
  predicate OpenedSoFar(slots: seq<(string, Slot)>, key: Key, i: nat, done: seq<(string, string)>)
    requires i <= |slots|
  {
    var rest := OpenSlots(slots[i..], key);
    OpenSlots(slots, key) == if rest.None? then None else Some(done + rest.value)
  }

  lemma {:induction false} OpenedSoFarStarts(slots: seq<(string, Slot)>, key: Key)
    ensures OpenedSoFar(slots, key, 0, [])
  {
    assert slots[0..] == slots;
    var rest := OpenSlots(slots, key);
    if rest.Some? { assert [] + rest.value == rest.value; }
  }

  lemma {:induction false} OpenedSoFarStep(slots: seq<(string, Slot)>, key: Key, i: nat, done: seq<(string, string)>)
    requires i < |slots| && OpenedSoFar(slots, key, i, done)
    ensures slots[i].1.NotText? ==> OpenedSoFar(slots, key, i + 1, done)
    ensures slots[i].1.Text? ==>
              var first := Decrypt(key, slots[i].1.blob);
              if first.None? then OpenSlots(slots, key).None?
              else OpenedSoFar(slots, key, i + 1, done + [(slots[i].0, first.value)])
  {
    assert slots[i..][0] == slots[i] && slots[i..][1..] == slots[i + 1..];
    var later := OpenSlots(slots[i + 1..], key);
    if slots[i].1.Text? && later.Some? {
      var first := Decrypt(key, slots[i].1.blob);
      if first.Some? {
        assert done + ([(slots[i].0, first.value)] + later.value) == done + [(slots[i].0, first.value)] + later.value;
      }
    }
  }

  lemma {:induction false} OpenedSoFarEnds(slots: seq<(string, Slot)>, key: Key, done: seq<(string, string)>)
    requires OpenedSoFar(slots, key, |slots|, done)
    ensures OpenSlots(slots, key) == Some(done)
  {
    assert slots[|slots|..] == [];
    assert done + [] == done;
  }

  lemma {:induction false} ResealedOpens(slots: seq<(string, string)>, key: Key, iv: nat -> nat, done: nat)
    requires done <= |slots|
    ensures OpenSlots(Resealed(slots, key, iv)[done..], key) == Some(slots[done..])
    decreases |slots| - done
  {
    var sealed := Resealed(slots, key, iv);
    if done < |slots| {
      ResealedOpens(slots, key, iv, done + 1);
      var rest, tail := sealed[done..], slots[done + 1..];
      assert rest[0] == (slots[done].0, Text(Encrypt(key, iv(done), slots[done].1)));
      assert rest[1..] == sealed[done + 1..];
      assert OpenSlots(rest, key) == Some([(slots[done].0, slots[done].1)] + tail);
      assert (slots[done].0, slots[done].1) == slots[done];
      assert slots[done..] == [slots[done]] + tail;
    } else {
      assert |sealed[done..]| == 0 && slots[done..] == [];
    }
  }

  /** Under another key, resealed slots open only if there are none. */
  lemma {:induction false} ResealedIsClosed(slots: seq<(string, string)>, key: Key, iv: nat -> nat, other: Key)
    requires other != key && slots != []
    ensures OpenSlots(Resealed(slots, key, iv), other) == None
  {
  }

  function TextSlots(slots: seq<(string, Slot)>): nat {
    if slots == [] then 0 else (if slots[0].1.Text? then 1 else 0) + TextSlots(slots[1..])
  }

  /** The secrets in the file: the text slots of its bucket. */
  function SecretCount(s: Storage): nat {
    if s.Stored? && s.envelope.secrets.Bucket? then TextSlots(s.envelope.secrets.slots) else 0
  }

  lemma {:induction false} OpenedCount(slots: seq<(string, Slot)>, key: Key)
    ensures OpenSlots(slots, key).Some? ==> |OpenSlots(slots, key).value| == TextSlots(slots)
  {
    if slots != [] { OpenedCount(slots[1..], key); }
  }

  // Rotation

  datatype Plan = Plan(storage: Option<Storage>, key: KeyState)

  /** Everything rotation decides before it writes anything. */
  function Planned(d: Disk, oldPass: string, newPass: string, salt: nat, iv: nat -> nat): Result<Plan> {
    var oldKey := Unlock(d.key, oldPass);
    if oldKey.Err? then Err(oldKey.error)
    else
      var minted, newKey := Mint(newPass, salt, iv(0)), Key(newPass, salt, COST);
      match d.storage
      case Missing => Ok(Plan(None, minted))
      case Torn => Err(UnreadableStorage)
      case NotAnObject => Err(UnreadableStorage)
      case Stored(envelope) =>
        var secrets := Reencrypted(envelope.secrets, oldKey.value, newKey, Later(iv));
        if secrets.None? then Err(UnreadableSlot)
        else Ok(Plan(Some(Stored(envelope.(secrets := secrets.value))), minted))
  }

  /** The states an atomic write goes through: a torn temporary file, a whole one, the rename. */
  function WriteStorage(d: Disk, s: Storage): seq<Disk> {
    [d.(storageTmp := Torn), d.(storageTmp := s), d.(storage := s, storageTmp := Missing)]
  }

  function WriteKey(d: Disk, k: KeyState): seq<Disk> {
    [d.(keyTmp := NotAKeyFile), d.(keyTmp := k), d.(key := k, keyTmp := NoKey)]
  }

  function CopyStorage(d: Disk): seq<Disk> { [d.(preRotate := Torn), d.(preRotate := d.storage)] }

  /** Every state of the disk during a planned rotation, the first included. */
  function States(d: Disk, plan: Plan): seq<Disk> {
    if plan.storage.None? then [d] + WriteKey(d, plan.key)
    else
      var copied := d.(preRotate := d.storage);
      var stored := copied.(storage := plan.storage.value, storageTmp := Missing);
      var keyed := stored.(key := plan.key, keyTmp := NoKey);
      [d] + CopyStorage(d) + WriteStorage(copied, plan.storage.value) + WriteKey(stored, plan.key)
      + [keyed.(preRotate := Missing)]
  }

  /** Where an attempt leaves the disk if it stops after `point` steps. */
  function CrashedAt(d: Disk, oldPass: string, newPass: string, salt: nat, iv: nat -> nat, point: nat): Disk {
    var plan := Planned(d, oldPass, newPass, salt, iv);
    if plan.Err? then d
    else
      var states := States(d, plan.value);
      states[if point < |states| then point else |states| - 1]
  }

  class DataDir {
    var disk: Disk
    /** Every state the disk has been in, the present one last. */
    ghost var seen: seq<Disk>

    constructor (d: Disk)
      ensures disk == d && seen == [d]
    {
      disk, seen := d, [d];
    }

    /** The one operation that changes the disk. */
    method Put(d: Disk)
      modifies this
      ensures disk == d && seen == old(seen) + [d]
    {
      disk, seen := d, seen + [d];
    }

    method WriteStorageAtomic(s: Storage)
      modifies this
      ensures disk == old(disk).(storage := s, storageTmp := Missing)
      ensures seen == old(seen) + WriteStorage(old(disk), s)
    {
      Put(disk.(storageTmp := Torn));
      Put(disk.(storageTmp := s));
      Put(disk.(storage := disk.storageTmp, storageTmp := Missing));
    }

    method WriteKeyAtomic(k: KeyState)
      modifies this
      ensures disk == old(disk).(key := k, keyTmp := NoKey)
      ensures seen == old(seen) + WriteKey(old(disk), k)
    {
      Put(disk.(keyTmp := NotAKeyFile));
      Put(disk.(keyTmp := k));
      Put(disk.(key := disk.keyTmp, keyTmp := NoKey));
    }

    /** Rotate; returns how many slots were encrypted again. */
    method Rotate(oldPass: string, newPass: string, salt: nat, iv: nat -> nat) returns (r: Result<nat>)
      modifies this
      ensures var plan := Planned(old(disk), oldPass, newPass, salt, iv);
              && (plan.Err? ==> r == Err(plan.error) && disk == old(disk) && seen == old(seen))
              && (plan.Ok? ==> r == Ok(SecretCount(old(disk).storage)))
              && (plan.Ok? ==> seen == old(seen) + States(old(disk), plan.value)[1..])
              && (plan.Ok? ==> disk == CrashedAt(old(disk), oldPass, newPass, salt, iv, 9))
    {
      hide OpenSlots, Verify, Encrypt, TextSlots;
      ghost var d, plan := disk, Planned(disk, oldPass, newPass, salt, iv);
      var oldKey := Unlock(disk.key, oldPass);
      if oldKey.Err? { return Err(oldKey.error); }
      var newKeyFile, newKey := Mint(newPass, salt, iv(0)), Key(newPass, salt, COST);
      var storage, reencrypted := disk.storage, 0;
      if storage.Torn? || storage.NotAnObject? { return Err(UnreadableStorage); }
      if storage.Stored? {
        var envelope := storage.envelope;
        if envelope.secrets.Bucket? {
          var next := ReencryptSlots(envelope.secrets.slots, oldKey.value, newKey, Later(iv));
          if next.None? { return Err(UnreadableSlot); }
          OpenedCount(envelope.secrets.slots, oldKey.value);
          envelope, reencrypted := envelope.(secrets := Bucket(next.value)), |next.value|;
        }
        assert plan == Ok(Plan(Some(Stored(envelope)), newKeyFile));
        Put(disk.(preRotate := Torn));
        Put(disk.(preRotate := disk.storage));
        assert seen == old(seen) + CopyStorage(d);
        WriteStorageAtomic(Stored(envelope));
      }
      WriteKeyAtomic(newKeyFile);
      if storage.Stored? {
        Put(disk.(preRotate := Missing));
      }
      r := Ok(reencrypted);
    }
  }

  // Recovery

  /** `s` holds exactly `plain` for the holder of `key`. */
  predicate Holds(s: Storage, key: Key, plain: Option<Plain>) {
    if plain.None? then s.Missing? else s.Stored? && Contents(s.envelope, key) == plain
  }

  /** A storage with a secret that `key` does not open. */
  predicate Closed(s: Storage, key: Key) {
    s.Stored? && Contents(s.envelope, key).None?
  }

  /**
   * The key on disk, under its passphrase, opens everything there is to open: in `storage.json`, or else in
   * the pre-rotation copy, and then `storage.json` has a secret it does not open.
   */
  predicate RecoverableWith(d: Disk, passphrase: string, plain: Option<Plain>) {
    && d.key.KeyFile? && Verify(d.key, passphrase).Ok?
    && var key := Verify(d.key, passphrase).value;
       Holds(d.storage, key, plain) || (Holds(d.preRotate, key, plain) && Closed(d.storage, key))
  }

  lemma {:induction false} MintVerifies(passphrase: string, salt: nat, iv: nat)
    ensures Verify(Mint(passphrase, salt, iv), passphrase) == Ok(Key(passphrase, salt, COST))
  {
  }

  /** Only the passphrase that made the key file verifies it. */
  lemma {:induction false} OnePassphrase(file: KeyState, p: string, q: string)
    requires file.KeyFile? && Verify(file, p).Ok? && Verify(file, q).Ok?
    ensures p == q
  {
  }

  /** Re-encryption keeps the meaning of the envelope, and hides it from every other key that revealed something. */
  lemma {:induction false} ReencryptionKeeps(e: Envelope, oldKey: Key, newKey: Key, iv: nat -> nat)
    requires Reencrypted(e.secrets, oldKey, newKey, iv).Some?
    ensures var t := e.(secrets := Reencrypted(e.secrets, oldKey, newKey, iv).value);
            && Contents(t, newKey) == Contents(e, oldKey) && Contents(e, oldKey).Some? && t.fields == e.fields
            && (Contents(t, oldKey) == Contents(e, oldKey) || Contents(t, oldKey).None?)
  {
    if e.secrets.Bucket? {
      var slots := OpenSlots(e.secrets.slots, oldKey).value;
      ResealedOpens(slots, newKey, iv, 0);
      assert Resealed(slots, newKey, iv)[0..] == Resealed(slots, newKey, iv) && slots[0..] == slots;
      if oldKey != newKey && slots != [] { ResealedIsClosed(slots, newKey, iv, oldKey); }
    }
  }

  // Crashes

  /** What the steps of a plan leave untouched or replace, state by state. */
  lemma {:induction false} StatesOfPlan(d: Disk, plan: Plan, i: nat)
    requires plan.storage.Some? && i < |States(d, plan)|
    ensures |States(d, plan)| == 10
    ensures var t := States(d, plan)[i];
            && t.storage == (if i < 5 then d.storage else plan.storage.value)
            && t.key == (if i < 8 then d.key else plan.key)
            && (2 <= i < 9 ==> t.preRotate == d.storage)
            && (i == 9 ==> t.preRotate == Missing)
  {
  }

  lemma {:induction false} StatesOfKeyPlan(d: Disk, plan: Plan, i: nat)
    requires plan.storage.None? && i < |States(d, plan)|
    ensures |States(d, plan)| == 4
    ensures var t := States(d, plan)[i];
            t.storage == d.storage && t.preRotate == d.preRotate && t.key == if i < 3 then d.key else plan.key
  {
  }

  /**
   * Wherever an attempt stops, the disk still holds every secret for the passphrase that verifies its key: the
   * old one, or the new one once the key file is replaced. An attempt that is refused changes nothing.
   */
  lemma {:induction false} CrashesAreRecoverable(
    d: Disk, passphrase: string, plain: Option<Plain>, oldPass: string, newPass: string, salt: nat, iv: nat -> nat,
    point: nat)
    requires RecoverableWith(d, passphrase, plain)
    ensures var t := CrashedAt(d, oldPass, newPass, salt, iv, point);
            RecoverableWith(t, passphrase, plain) || RecoverableWith(t, newPass, plain)
  {
    var plan := Planned(d, oldPass, newPass, salt, iv);
    if plan.Ok? {
      OnePassphrase(d.key, oldPass, passphrase);
      MintVerifies(newPass, salt, iv(0));
      var oldKey, newKey := Verify(d.key, oldPass).value, Key(newPass, salt, COST);
      var states := States(d, plan.value);
      var i := if point < |states| then point else |states| - 1;
      hide Verify, Mint, Contents, Reencrypted, States, Unlock;
      if d.storage.Missing? {
        StatesOfKeyPlan(d, plan.value, i);
      } else {
        StatesOfPlan(d, plan.value, i);
        ReencryptionKeeps(d.storage.envelope, oldKey, newKey, Later(iv));
      }
    }
  }

  /** An attempt to rotate, and how far it got. */
  datatype Attempt = Attempt(oldPass: string, newPass: string, salt: nat, iv: nat -> nat, point: nat)

  function AfterAttempts(d: Disk, attempts: seq<Attempt>): Disk
    decreases |attempts|
  {
    if attempts == [] then d
    else
      var a := attempts[0];
      AfterAttempts(CrashedAt(d, a.oldPass, a.newPass, a.salt, a.iv, a.point), attempts[1..])
  }

  /** Over any run of attempts, finished, refused or cut short anywhere, no secret is lost. */
  lemma {:induction false} RunsStayRecoverable(
    d: Disk, passphrase: string, plain: Option<Plain>, attempts: seq<Attempt>)
    returns (last: string)
    requires RecoverableWith(d, passphrase, plain)
    ensures RecoverableWith(AfterAttempts(d, attempts), last, plain)
    ensures last == passphrase || exists a <- attempts :: a.newPass == last
    decreases |attempts|
  {
    hide RecoverableWith, CrashedAt;
    last := passphrase;
    if attempts != [] {
      var a := attempts[0];
      assert a in attempts && forall later <- attempts[1..] :: later in attempts;
      var next := CrashedAt(d, a.oldPass, a.newPass, a.salt, a.iv, a.point);
      CrashesAreRecoverable(d, passphrase, plain, a.oldPass, a.newPass, a.salt, a.iv, a.point);
      var present := if RecoverableWith(next, passphrase, plain) then passphrase else a.newPass;
      last := RunsStayRecoverable(next, present, plain, attempts[1..]);
    }
  }

  ghost predicate HasSecret(e: Envelope) {
    e.secrets.Bucket? && exists slot <- e.secrets.slots :: slot.1.Text?
  }

  lemma {:induction false} SecretsAreOpened(slots: seq<(string, Slot)>, key: Key)
    requires OpenSlots(slots, key).Some? && exists slot <- slots :: slot.1.Text?
    ensures OpenSlots(slots, key).value != []
  {
    if !slots[0].1.Text? { SecretsAreOpened(slots[1..], key); }
  }

  /**
   * After a crash between the two replacements, with a secret at stake, rotating again is refused whatever
   * passphrases are given, and the pre-rotation copy stays: it is what the old key still opens.
   */
  lemma {:induction false} RerunIsRefused(
    d: Disk, oldPass: string, newPass: string, salt: nat, iv: nat -> nat, point: nat, again: Attempt)
    requires Planned(d, oldPass, newPass, salt, iv).Ok? && d.storage.Stored? && HasSecret(d.storage.envelope)
    requires 5 <= point < 8
    requires Unlock(d.key, oldPass).value != Key(newPass, salt, COST)
    ensures var t := CrashedAt(d, oldPass, newPass, salt, iv, point);
            && Planned(t, again.oldPass, again.newPass, again.salt, again.iv).Err?
            && AfterAttempts(t, [again]) == t && t.preRotate == d.storage && t.key == d.key
  {
    var plan := Planned(d, oldPass, newPass, salt, iv).value;
    var oldKey, newKey, ivs := Unlock(d.key, oldPass).value, Key(newPass, salt, COST), Later(iv);
    var t := CrashedAt(d, oldPass, newPass, salt, iv, point);
    var slots := OpenSlots(d.storage.envelope.secrets.slots, oldKey).value;
    SecretsAreOpened(d.storage.envelope.secrets.slots, oldKey);
    ResealedIsClosed(slots, newKey, ivs, oldKey);
    hide States, OpenSlots, Resealed;
    StatesOfPlan(d, plan, point);
    assert t.storage.envelope.secrets == Bucket(Resealed(slots, newKey, ivs));
    if Unlock(t.key, again.oldPass).Ok? { OnePassphrase(d.key, oldPass, again.oldPass); }
    assert AfterAttempts(CrashedAt(t, again.oldPass, again.newPass, again.salt, again.iv, again.point), [])
        == CrashedAt(t, again.oldPass, again.newPass, again.salt, again.iv, again.point);
    assert [again][1..] == [];
  }

  /**
   * Rotation goes ahead exactly when the passphrase verifies and the storage is absent or opens whole; then
   * the new passphrase opens the same secrets, no other field has changed, and the copy is gone.
   */
  lemma {:induction false} RotationMeansTheSame(d: Disk, oldPass: string, newPass: string, salt: nat, iv: nat -> nat)
    ensures var plan, key := Planned(d, oldPass, newPass, salt, iv), Unlock(d.key, oldPass);
            var opens := key.Ok? && d.storage.Stored? && Contents(d.storage.envelope, key.value).Some?;
            plan.Ok? <==> (key.Ok? && d.storage.Missing?) || opens
    ensures var plan, key := Planned(d, oldPass, newPass, salt, iv), Unlock(d.key, oldPass);
            var t := CrashedAt(d, oldPass, newPass, salt, iv, 9);
            plan.Ok? ==>
              && Unlock(t.key, newPass) == Ok(Key(newPass, salt, COST))
              && (d.storage.Missing? ==> t.storage.Missing? && t.preRotate == d.preRotate)
              && (d.storage.Stored? ==>
                    && t.storage.Stored? && t.preRotate == Missing
                    && t.storage.envelope.fields == d.storage.envelope.fields
                    && Contents(t.storage.envelope, Key(newPass, salt, COST))
                         == Contents(d.storage.envelope, key.value))
  {
    var plan, key := Planned(d, oldPass, newPass, salt, iv), Unlock(d.key, oldPass);
    if plan.Ok? {
      MintVerifies(newPass, salt, iv(0));
      var newKey := Key(newPass, salt, COST);
      var states := States(d, plan.value);
      hide States, Verify, Mint, OpenSlots;
      if d.storage.Missing? {
        StatesOfKeyPlan(d, plan.value, 0);
        StatesOfKeyPlan(d, plan.value, 3);
      } else {
        StatesOfPlan(d, plan.value, 0);
        StatesOfPlan(d, plan.value, 9);
        ReencryptionKeeps(d.storage.envelope, key.value, newKey, Later(iv));
      }
    }
  }

  // Refusals

  /** The ciphertext was made with this key. */
  predicate MadeWith(blob: Blob, key: Key) { blob.Sealed? && blob.key == key }

  /** The passphrase is that of the key file. */
  predicate Fits(file: KeyState, passphrase: string) {
    file.KeyFile? && MadeWith(file.check, Key(passphrase, file.salt, file.cost))
  }

  predicate HasForeignSlot(slots: seq<(string, Slot)>, key: Key) {
    exists s <- slots :: s.1.Text? && !MadeWith(s.1.blob, key)
  }

  lemma {:induction false} OpensExactly(slots: seq<(string, Slot)>, key: Key)
    ensures OpenSlots(slots, key).Some? <==> !HasForeignSlot(slots, key)
  {
    if slots != [] {
      OpensExactly(slots[1..], key);
      assert forall s :: s in slots <==> s == slots[0] || s in slots[1..];
    }
  }

  /** Why a rotation is refused: each error in exactly one case. */
  lemma {:induction false} RefusedExactly(d: Disk, oldPass: string, newPass: string, salt: nat, iv: nat -> nat)
    ensures var plan, ready := Planned(d, oldPass, newPass, salt, iv),
                               Fits(d.key, oldPass) && d.key.check.plaintext == KEY_CHECK;
            && (plan == Err(NothingToRotate) <==> d.key.NoKey?)
            && (plan == Err(BadKeyFile) <==> d.key.NotAKeyFile?)
            && (plan == Err(WrongPassphrase) <==> d.key.KeyFile? && !Fits(d.key, oldPass))
            && (plan == Err(CorruptKeyFile) <==> Fits(d.key, oldPass) && !ready)
            && (plan == Err(UnreadableStorage) <==> ready && (d.storage.Torn? || d.storage.NotAnObject?))
            && (plan == Err(UnreadableSlot) <==>
                  ready && d.storage.Stored? && d.storage.envelope.secrets.Bucket?
                  && HasForeignSlot(d.storage.envelope.secrets.slots, Key(oldPass, d.key.salt, d.key.cost)))
  {
    if d.key.KeyFile? && d.storage.Stored? && d.storage.envelope.secrets.Bucket? {
      OpensExactly(d.storage.envelope.secrets.slots, Key(oldPass, d.key.salt, d.key.cost));
    }
    hide OpenSlots, HasForeignSlot, Resealed;
  }

  // First use

  /** Unlocking for use: a missing key file is minted, a present one is only ever verified. */
  function UnlockForUse(d: Disk, passphrase: string, salt: nat, iv: nat): (Disk, Result<Key>) {
    if d.key.NoKey? then (d.(key := Mint(passphrase, salt, iv)), Ok(Key(passphrase, salt, COST)))
    else (d, Unlock(d.key, passphrase))
  }

  ghost predicate NeverRepeats(iv: nat -> nat) { forall i, j | i != j :: iv(i) != iv(j) }

  lemma {:induction false} SlotIvsAreFresh(slots: seq<(string, string)>, key: Key, iv: nat -> nat)
    requires NeverRepeats(iv)
    ensures var sealed := Resealed(slots, key, Later(iv));
            && (forall s <- sealed :: s.1.Text? && s.1.blob.Sealed? && s.1.blob.iv != iv(0))
            && (forall i, j | 0 <= i < j < |sealed| :: sealed[i].1.blob.iv != sealed[j].1.blob.iv)
  {
    var sealed := Resealed(slots, key, Later(iv));
    hide *;
    forall s | s in sealed ensures s.1.Text? && s.1.blob.Sealed? && s.1.blob.iv != iv(0) {
      var i :| 0 <= i < |sealed| && sealed[i] == s;
      SealedAt(slots, key, iv, i);
      Differ(iv, i + 1, 0);
    }
    forall i, j | 0 <= i < j < |sealed| ensures sealed[i].1.blob.iv != sealed[j].1.blob.iv {
      SealedAt(slots, key, iv, i);
      SealedAt(slots, key, iv, j);
      Differ(iv, i + 1, j + 1);
    }
  }

  lemma {:induction false} SealedAt(slots: seq<(string, string)>, key: Key, iv: nat -> nat, i: nat)
    requires i < |slots|
    ensures Resealed(slots, key, Later(iv))[i].1 == Text(Sealed(key, iv(i + 1), slots[i].1))
  {
    assert Later(iv)(i) == iv(i + 1);
    assert Resealed(slots, key, Later(iv))[i] == (slots[i].0, Text(Encrypt(key, Later(iv)(i), slots[i].1)));
  }

  lemma {:induction false} Differ(iv: nat -> nat, i: nat, j: nat)
    requires NeverRepeats(iv) && i != j
    ensures iv(i) != iv(j)
  {
  }

  /** Every ciphertext a rotation writes, the key check and each slot, has an IV of its own. */
  lemma {:induction false} IvsAreFresh(d: Disk, oldPass: string, newPass: string, salt: nat, iv: nat -> nat)
    requires NeverRepeats(iv)
    requires Planned(d, oldPass, newPass, salt, iv).Ok?
    ensures var plan := Planned(d, oldPass, newPass, salt, iv).value;
            && plan.key.KeyFile? && plan.key.check.Sealed?
            && (plan.storage.Some? && d.storage.envelope.secrets.Bucket? ==>
                  var storage := plan.storage.value;
                  && storage.Stored? && storage.envelope.secrets.Bucket?
                  && var slots := storage.envelope.secrets.slots;
                     && (forall s <- slots :: s.1.Text? && s.1.blob.Sealed? && s.1.blob.iv != plan.key.check.iv)
                     && (forall i, j | 0 <= i < j < |slots| :: slots[i].1.blob.iv != slots[j].1.blob.iv))
  {
    hide OpenSlots, Unlock, Resealed, NeverRepeats;
    if d.storage.Stored? && d.storage.envelope.secrets.Bucket? {
      var oldKey, newKey := Unlock(d.key, oldPass).value, Key(newPass, salt, COST);
      SlotIvsAreFresh(OpenSlots(d.storage.envelope.secrets.slots, oldKey).value, newKey, iv);
    }
  }

  /** The vault is never silently re-keyed: after the first unlock every other passphrase is refused. */
  lemma {:induction false} NeverRekeyed(
    d: Disk, passphrase: string, salt: nat, iv: nat, other: string, otherSalt: nat, otherIv: nat)
    requires UnlockForUse(d, passphrase, salt, iv).1.Ok?
    ensures var t := UnlockForUse(d, passphrase, salt, iv).0;
            && UnlockForUse(t, other, otherSalt, otherIv).0 == t
            && (UnlockForUse(t, other, otherSalt, otherIv).1.Ok? <==> other == passphrase)
            && UnlockForUse(t, passphrase, otherSalt, otherIv).1 == UnlockForUse(d, passphrase, salt, iv).1
  {
    MintVerifies(passphrase, salt, iv);
  }
}
