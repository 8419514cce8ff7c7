/**
 * The private key on the device: a cached array shared with the callers, a record in IndexedDB encrypted under a
 * key derived from the browser, and two localStorage items.
 */
module KeyStorage {
  import opened Options
  import opened Codec
  import opened ChatKeys

  datatype Record = Record(encrypted: Bytes, iv: Bytes)

  datatype Kind = Persistent | Session

  /** What survives a page reload: IndexedDB, and the items private_key and key_storage_type. */
  datatype Disk = Disk(db: Option<Record>, item: Option<string>, kind: Option<Kind>)

  const EMPTY := Disk(None, None, None)

  /** The AEAD and the key deriveStorageKey computes in this browser. */
  datatype Vault = Vault(aead: Aead, key: Bytes)

  function Sealed(v: Vault, privateKey: Bytes, iv: Bytes): Record {
    Record(v.aead.seal(v.key, iv, privateKey), iv)
  }

  function Opened(v: Vault, db: Option<Record>): Option<Bytes> {
    match db
    case None => None
    case Some(r) => v.aead.open_(v.key, r.iv, r.encrypted)
  }

  /** An empty item is as good as none. */
  function FromItem(item: Option<string>): Option<Bytes> {
    if item.None? || item.value == "" then None else Atob64(item.value)
  }

  /** A failing put falls back to localStorage; older entries of the other kind stay behind. */
  function DiskSaved(v: Vault, d: Disk, privateKey: Bytes, persistent: bool, iv: Bytes, dbFails: bool): Disk {
    if persistent && !dbFails then d.(db := Some(Sealed(v, privateKey, iv)), kind := Some(Persistent))
    else d.(item := Some(Encode64(privateKey)), kind := Some(if persistent then Persistent else Session))
  }

  /** What restore finds without a cache. */
  function Recovered(v: Vault, d: Disk, dbFails: bool): Option<Bytes> {
    match d.kind
    case None => None
    case Some(Session) => FromItem(d.item)
    case Some(Persistent) => if !dbFails && Opened(v, d.db).Some? then Opened(v, d.db) else FromItem(d.item)
  }

  function DiskCleared(d: Disk, dbFails: bool): Disk {
    Disk(if dbFails then d.db else None, None, None)
  }

  lemma {:induction false} ItemRoundTrip(privateKey: Bytes)
    ensures FromItem(Some(Encode64(privateKey))) == if privateKey == [] then None else Some(privateKey)
  {
    Base64RoundTrip(privateKey);
    EncodeShape(privateKey);
  }

  /**
   * When a save survives a reload: always when IndexedDB takes it; in session mode unless the key is empty; and
   * when the put fails unless the key is empty or an older record that still opens to another key shadows it.
   */
  predicate Survives(v: Vault, d: Disk, privateKey: Bytes, persistent: bool, dbFails: bool) {
    if persistent && !dbFails then true
    else if persistent && Opened(v, d.db).Some? then Opened(v, d.db) == Some(privateKey)
    else privateKey != []
  }

  lemma {:induction false} SavedIsRecovered(v: Vault, d: Disk, privateKey: Bytes, persistent: bool, iv: Bytes, dbFails: bool)
    requires Correct(v.aead)
    ensures Recovered(v, DiskSaved(v, d, privateKey, persistent, iv, dbFails), false) == Some(privateKey)
            <==> Survives(v, d, privateKey, persistent, dbFails)
  {
    ItemRoundTrip(privateKey);
  }

  /** A record that cannot be read back when it is needed yields whatever an earlier session left in localStorage. */
  lemma {:induction false} ReadFailureFindsLeftover(v: Vault, d: Disk, privateKey: Bytes, iv: Bytes, older: Bytes)
    ensures Recovered(v, DiskSaved(v, DiskSaved(v, d, older, false, iv, false), privateKey, true, iv, false), true)
            == if older == [] then None else Some(older)
  {
    ItemRoundTrip(older);
  }

  /** A cleared device yields no key, even if IndexedDB kept its record. */
  lemma {:induction false} ClearedIsGone(v: Vault, d: Disk, dbFails: bool, readFails: bool)
    ensures Recovered(v, DiskCleared(d, dbFails), readFails) == None
  {
  }

  // ---- Whole runs over cache and disk ----

  /** The key in the cached array, and the disk. */
  datatype Device = Device(cache: Option<Bytes>, disk: Disk)

  datatype Op =
    | SaveOp(privateKey: Bytes, persistent: bool, iv: Bytes, dbFails: bool)
    | ClearOp(dbFails: bool)
    | ReloadOp
    | RestoreOp(dbFails: bool)

  /** Restoring comes to the localStorage item; one that is no base64 is removed. */
  function DiskRestored(v: Vault, d: Disk, dbFails: bool): Disk {
    var readsItem := d.kind == Some(Session) || (d.kind == Some(Persistent) && (dbFails || Opened(v, d.db).None?));
    if readsItem && d.item.Some? && d.item.value != "" && Atob64(d.item.value).None? then d.(item := None) else d
  }

  /** The cache afterwards is what restoring returns. */
  function Restored(v: Vault, dev: Device, dbFails: bool): Device {
    if dev.cache.Some? then dev else Device(Recovered(v, dev.disk, dbFails), DiskRestored(v, dev.disk, dbFails))
  }

  function After(v: Vault, dev: Device, op: Op): Device {
    match op
    case SaveOp(privateKey, persistent, iv, dbFails) =>
      Device(Some(privateKey), DiskSaved(v, dev.disk, privateKey, persistent, iv, dbFails))
    case ClearOp(dbFails) => Device(None, DiskCleared(dev.disk, dbFails))
    case ReloadOp => dev.(cache := None)
    case RestoreOp(dbFails) => Restored(v, dev, dbFails)
  }

  function DeviceRun(v: Vault, ops: seq<Op>): Device {
    if ops == [] then Device(None, EMPTY) else After(v, DeviceRun(v, ops[..|ops| - 1]), ops[|ops| - 1])
  }

  // What a run means, told from its operations alone.

  /** The last key saved and not cleared since. */
  function LastSaved(ops: seq<Op>): Option<Bytes> {
    if ops == [] then None
    else
      match ops[|ops| - 1]
      case SaveOp(privateKey, _, _, _) => Some(privateKey)
      case ClearOp(_) => None
      case _ => LastSaved(ops[..|ops| - 1])
  }

  /** The key of the last put IndexedDB took, unless it has taken a delete since. */
  function DbKey(ops: seq<Op>): Option<Bytes> {
    if ops == [] then None
    else
      var op := ops[|ops| - 1];
      if op.SaveOp? && op.persistent && !op.dbFails then Some(op.privateKey)
      else if op.ClearOp? && !op.dbFails then None
      else DbKey(ops[..|ops| - 1])
  }

  /** The key of the last save that went to localStorage, unless cleared since. */
  function ItemKey(ops: seq<Op>): Option<Bytes> {
    if ops == [] then None
    else
      var op := ops[|ops| - 1];
      if op.SaveOp? && (!op.persistent || op.dbFails) then Some(op.privateKey)
      else if op.ClearOp? then None
      else ItemKey(ops[..|ops| - 1])
  }

  /** The kind of the last save, unless cleared since. */
  function KindOf(ops: seq<Op>): Option<Kind> {
    if ops == [] then None
    else
      match ops[|ops| - 1]
      case SaveOp(_, persistent, _, _) => Some(if persistent then Persistent else Session)
      case ClearOp(_) => None
      case _ => KindOf(ops[..|ops| - 1])
  }

  function NonEmpty(key: Option<Bytes>): Option<Bytes> {
    if key == Some([]) then None else key
  }

  /** What a page without a cache finds, IndexedDB failing to be read or not. */
  function Found(ops: seq<Op>, dbFails: bool): Option<Bytes> {
    match KindOf(ops)
    case None => None
    case Some(Session) => NonEmpty(ItemKey(ops))
    case Some(Persistent) => if !dbFails && DbKey(ops).Some? then DbKey(ops) else NonEmpty(ItemKey(ops))
  }

  function CacheOf(ops: seq<Op>): Option<Bytes> {
    if ops == [] then None
    else
      var front := ops[..|ops| - 1];
      match ops[|ops| - 1]
      case SaveOp(privateKey, _, _, _) => Some(privateKey)
      case ClearOp(_) => None
      case ReloadOp => None
      case RestoreOp(dbFails) => if CacheOf(front).Some? then CacheOf(front) else Found(front, dbFails)
  }

  /** The device follows the operations. */
  lemma {:induction false} DeviceFollows(v: Vault, ops: seq<Op>)
    requires Correct(v.aead)
    ensures var dev := DeviceRun(v, ops);
            && Opened(v, dev.disk.db) == DbKey(ops) && FromItem(dev.disk.item) == NonEmpty(ItemKey(ops))
            && dev.disk.kind == KindOf(ops) && dev.cache == CacheOf(ops)
    decreases |ops|
  {
    if ops != [] {
      var op := ops[|ops| - 1];
      DeviceFollows(v, ops[..|ops| - 1]);
      hide FromItem, Atob64, Encode64;
      if op.SaveOp? {
        ItemRoundTrip(op.privateKey);
      } else if op.RestoreOp? {
        RestoreKeepsDisk(v, DeviceRun(v, ops[..|ops| - 1]).disk, op.dbFails);
      }
      NoItem();
    }
  }

  lemma {:induction false} NoItem()
    ensures FromItem(None) == None
  {
  }

  /** Restoring may remove an item, but only one that says nothing. */
  lemma {:induction false} RestoreKeepsDisk(v: Vault, d: Disk, dbFails: bool)
    ensures var e := DiskRestored(v, d, dbFails); e.db == d.db && e.kind == d.kind && FromItem(e.item) == FromItem(d.item)
  {
  }

  // When the right key comes back.

  /** The page has been reloaded since the last save or clear. */
  predicate Reloaded(ops: seq<Op>) {
    ops != [] && (ops[|ops| - 1].ReloadOp? || (ops[|ops| - 1].RestoreOp? && Reloaded(ops[..|ops| - 1])))
  }

  /** Whether IndexedDB fails in the read that decides: the first one since the last reload that finds a key, or this one. */
  function Decisive(ops: seq<Op>, dbFails: bool): bool {
    if ops == [] || !ops[|ops| - 1].RestoreOp? then dbFails
    else
      var front := ops[..|ops| - 1];
      var first := Decisive(front, ops[|ops| - 1].dbFails);
      if Found(front, first).Some? then first else dbFails
  }

  /**
   * Whether a page without a cache gets the last key saved. A key IndexedDB took: yes if it can be read; if not, only
   * if the item left over from an earlier save holds the same key. A key of session mode: unless it is empty. A key
   * whose put failed: unless it is empty; but if IndexedDB can be read and holds an older key, only if that is the same.
   */
  predicate Comes(ops: seq<Op>, dbFails: bool) {
    if ops == [] then true
    else
      var front := ops[..|ops| - 1];
      match ops[|ops| - 1]
      case SaveOp(privateKey, persistent, _, putFails) =>
        if persistent && !putFails then dbFails ==> NonEmpty(ItemKey(front)) == Some(privateKey)
        else if persistent && !dbFails && DbKey(front).Some? then DbKey(front) == Some(privateKey)
        else privateKey != []
      case ClearOp(_) => true
      case _ => Comes(front, dbFails)
  }

  lemma {:induction false} FoundIffComes(ops: seq<Op>, dbFails: bool)
    ensures Found(ops, dbFails) == LastSaved(ops) <==> Comes(ops, dbFails)
    decreases |ops|
  {
    if ops != [] {
      FoundIffComes(ops[..|ops| - 1], dbFails);
    }
  }

  /** The cache holds the last key saved, or what the decisive read of a reloaded page found. */
  lemma {:induction false} CacheMeans(ops: seq<Op>, dbFails: bool)
    ensures (if CacheOf(ops).Some? then CacheOf(ops) else Found(ops, dbFails))
            == if Reloaded(ops) then Found(ops, Decisive(ops, dbFails)) else LastSaved(ops)
    decreases |ops|
  {
    if ops != [] {
      var front, op := ops[..|ops| - 1], ops[|ops| - 1];
      if op.RestoreOp? {
        CacheMeans(front, op.dbFails);
        CacheMeans(front, dbFails);
        SameFound(ops, front);
      }
    } else {
      assert Found(ops, dbFails) == None;
    }
    if !Reloaded(ops) {
      UnreloadedFindsNothing(ops, dbFails);
    }
  }

  lemma {:induction false} SameFound(ops: seq<Op>, front: seq<Op>)
    requires ops != [] && front == ops[..|ops| - 1] && (ops[|ops| - 1].RestoreOp? || ops[|ops| - 1].ReloadOp?)
    ensures forall f :: Found(ops, f) == Found(front, f)
    ensures LastSaved(ops) == LastSaved(front)
  {
  }

  /** Without a reload an empty cache means that nothing is saved. */
  lemma {:induction false} UnreloadedFindsNothing(ops: seq<Op>, dbFails: bool)
    requires !Reloaded(ops)
    ensures CacheOf(ops) == LastSaved(ops) && (LastSaved(ops) == None ==> Found(ops, dbFails) == None)
    decreases |ops|
  {
    if ops != [] && ops[|ops| - 1].RestoreOp? {
      UnreloadedFindsNothing(ops[..|ops| - 1], dbFails);
      UnreloadedFindsNothing(ops[..|ops| - 1], ops[|ops| - 1].dbFails);
    }
  }

  /**
   * After any run of saves, clears, reloads and restores, IndexedDB failing at will, restoring returns the last key
   * saved and not cleared, or null if there is none, exactly when the page was not reloaded since, or that key
   * comes back in the read that decides.
   */
  lemma {:induction false} RunRestoresLast(v: Vault, ops: seq<Op>, dbFails: bool)
    requires Correct(v.aead)
    ensures Restored(v, DeviceRun(v, ops), dbFails).cache == LastSaved(ops)
            <==> !Reloaded(ops) || Comes(ops, Decisive(ops, dbFails))
  {
    DeviceFollows(v, ops);
    CacheMeans(ops, dbFails);
    FoundIffComes(ops, Decisive(ops, dbFails));
    hide FromItem, DeviceRun, DbKey, ItemKey, KindOf, CacheOf, Comes;
    assert Recovered(v, DeviceRun(v, ops).disk, dbFails) == Found(ops, dbFails);
  }

  /** Every put and read succeeds, and no key is empty in session mode; clears may fail. */
  predicate Untroubled(op: Op) {
    && (op.SaveOp? ==> if op.persistent then !op.dbFails else op.privateKey != [])
    && (op.RestoreOp? ==> !op.dbFails)
  }

  /** Then storage is one optional cell: restoring always returns the last key saved and not cleared. */
  lemma {:induction false} StorageIsACell(v: Vault, ops: seq<Op>)
    requires Correct(v.aead) && forall i :: 0 <= i < |ops| ==> Untroubled(ops[i])
    ensures Restored(v, DeviceRun(v, ops), false).cache == LastSaved(ops)
  {
    RunRestoresLast(v, ops, false);
    UntroubledComes(ops);
  }

  lemma {:induction false} UntroubledComes(ops: seq<Op>)
    requires forall i :: 0 <= i < |ops| ==> Untroubled(ops[i])
    ensures Comes(ops, false) && !Decisive(ops, false)
    decreases |ops|
  {
    if ops != [] {
      UntroubledComes(ops[..|ops| - 1]);
    }
  }

  // ---- The module's functions ----

  class SecureStorage {
    const vault: Vault
    var cached: array?<Byte>
    var disk: Disk
    /** The last key saved and not cleared since. */
    ghost var cell: Option<Bytes>

    /** Cache and disk both stand for the cell. */
    ghost predicate Valid()
      reads this, cached
    {
      && Correct(vault.aead)
      && (cached != null ==> cell == Some(cached[..]))
      && Recovered(vault, disk, false) == cell
    }

    ghost function Dev(): Device
      reads this, cached
    {
      Device(if cached == null then None else Some(cached[..]), disk)
    }

    constructor (vault: Vault)
      requires Correct(vault.aead)
      ensures Valid() && cell == None && cached == null && this.vault == vault && Dev() == Device(None, EMPTY)
    {
      this.vault, cached, disk, cell := vault, null, EMPTY, None;
    }

    /** The cache is the caller's array, not a copy. */
    method SavePrivateKeySecure(privateKey: array<Byte>, persistent: bool, iv: Bytes, dbFails: bool)
      requires Correct(vault.aead)
      modifies this
      ensures cached == privateKey && cell == Some(privateKey[..])
      ensures Dev() == After(vault, old(Dev()), SaveOp(privateKey[..], persistent, iv, dbFails))
      ensures Valid() <==> Survives(vault, old(disk), privateKey[..], persistent, dbFails)
    {
      SavedIsRecovered(vault, disk, privateKey[..], persistent, iv, dbFails);
      cached := privateKey;
      cell := Some(privateKey[..]);
      if persistent {
        if !dbFails {
          disk := disk.(db := Some(Sealed(vault, privateKey[..], iv)), kind := Some(Persistent));
        } else {
          disk := disk.(item := Some(Encode64(privateKey[..])), kind := Some(Persistent));
        }
      } else {
        disk := disk.(item := Some(Encode64(privateKey[..])), kind := Some(Session));
      }
    }

    /** Restoring returns the cell: the cached array itself, or a new one that becomes the cache. */
    method RestorePrivateKeySecure(dbFails: bool) returns (r: array?<Byte>)
      modifies this
      ensures r == cached && (old(cached) != null ==> r == old(cached) && disk == old(disk))
      ensures Dev() == After(vault, old(Dev()), RestoreOp(dbFails))
      ensures old(cached) == null && r != null ==> fresh(r)
      ensures cell == old(cell)
      ensures old(Valid()) && !dbFails ==> Valid() && (if r == null then cell == None else cell == Some(r[..]))
    {
      hide Correct, FromItem, Atob64;
      if cached != null {
        return cached;
      }
      r := null;
      if disk.kind == Some(Persistent) {
        if !dbFails && disk.db.Some? {
          var privateKey := Opened(vault, disk.db);
          if privateKey.Some? {
            r := ArrayOf(privateKey.value);
            cached := r;
            return;
          }
        }
        r := RestoreItem();
      } else if disk.kind == Some(Session) {
        r := RestoreItem();
      }
    }

    /** The localStorage item; one that is no base64 is removed. */
    method RestoreItem() returns (r: array?<Byte>)
      requires cached == null
      modifies `cached, `disk
      ensures r == cached && (r == null <==> FromItem(old(disk).item) == None)
      ensures r != null ==> fresh(r) && FromItem(old(disk).item) == Some(r[..]) && disk == old(disk)
      ensures FromItem(disk.item) == FromItem(old(disk).item)
      ensures var item := old(disk).item;
              disk == if item.Some? && item.value != "" && Atob64(item.value).None? then old(disk).(item := None) else old(disk)
    {
      r := null;
      if disk.item.Some? && disk.item.value != "" {
        var bytes := Base64ToArrayBuffer(disk.item.value);
        if bytes.Some? {
          r := bytes.value;
          cached := r;
        } else {
          disk := disk.(item := None);
        }
      }
    }

    /** The cached array is wiped in place, in the hands of whoever else holds it. */
    method ClearKeysSecure(dbFails: bool)
      requires Correct(vault.aead)
      modifies this, cached
      ensures Valid() && cell == None && cached == null && Dev() == After(vault, old(Dev()), ClearOp(dbFails))
      ensures old(cached) != null ==> forall i :: 0 <= i < old(cached).Length ==> old(cached)[i] == 0
    {
      if cached != null {
        forall i | 0 <= i < cached.Length {
          cached[i] := 0;
        }
        cached := null;
      }
      disk := disk.(db := if dbFails then disk.db else None);
      disk := disk.(item := None, kind := None);
      cell := None;
    }

    /** The page goes, and the memory with it. */
    method Reload()
      modifies `cached
      ensures cached == null && Dev() == After(vault, old(Dev()), ReloadOp) && (old(Valid()) ==> Valid())
    {
      cached := null;
    }
  }

  method ArrayOf(b: Bytes) returns (a: array<Byte>)
    ensures fresh(a) && a[..] == b
  {
    a := new Byte[|b|];
    forall i | 0 <= i < |b| {
      a[i] := b[i];
    }
  }
}
