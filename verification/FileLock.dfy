/** Single-writer, multiple-reader file locking (rts/FileLock.c), over the bag contracts of Hash. */
module FileLock {
  import opened Hash
  import opened Options

  newtype Word = x: int | 0 <= x < 0x1_0000_0000_0000_0000
  type FileId = (Word, Word)   // device and inode

  class Lock {
    const device: Word
    const inode: Word
    var readers: int    // > 0: readers, < 0: writers

    constructor (device: Word, inode: Word, readers: int)
      ensures this.device == device && this.inode == inode && this.readers == readers
    {
      this.device, this.inode, this.readers := device, inode, readers;
    }

    function File(): FileId { (device, inode) }
  }

  /** hashLock xors the words of inode and device; hashWord strips the low byte. */
  function HashLock(file: FileId): nat {
    var device, inode := file.0 as bv64, file.1 as bv64;
    ((inode ^ (inode >> 32) ^ device ^ (device >> 32)) >> 8) as nat
  }

  function LockKey(l: Lock): FileId { l.File() }

  function WordKey(w: Word): Word { w }

  function HashId(w: Word): nat { w as nat / 256 }

  /** Who holds a file: one writer, or a bag of readers (the same descriptor may lock twice). */
  datatype Hold = Writer(id: Word) | Readers(ids: multiset<Word>)

  ghost function Ids(h: Hold): multiset<Word> {
    match h
    case Writer(id) => multiset{id}
    case Readers(ids) => ids
  }

  /** The `readers` field that stands for a hold. */
  ghost function Field(h: Hold): int {
    match h
    case Writer(_) => -1
    case Readers(ids) => |ids|
  }

  /** Single writer, multiple readers: a new holder is let in only beside readers, and only to read. */
  ghost predicate Granted(holds: map<FileId, Hold>, file: FileId, forWriting: bool) {
    file in holds ==> !forWriting && holds[file].Readers?
  }

  ghost function Taken(holds: map<FileId, Hold>, file: FileId, id: Word, forWriting: bool): map<FileId, Hold>
    requires Granted(holds, file, forWriting)
  {
    holds[file := if forWriting then Writer(id)
                  else Readers((if file in holds then holds[file].ids else multiset{}) + multiset{id})]
  }

  /** The holds after one holder of a file has gone. */
  ghost function Released(holds: map<FileId, Hold>, file: FileId, id: Word): map<FileId, Hold>
    requires file in holds
  {
    var left := Ids(holds[file]) - multiset{id};
    if |left| == 0 then holds - {file} else holds[file := Readers(left)]
  }

  /** obj_hash holds exactly the Locks of the held files. */
  ghost predicate ObjectsOf(b: multiset<Entry<Lock, Lock>>, locks: map<FileId, Lock>) {
    && (forall f | f in locks :: locks[f].File() == f && b[Entry(locks[f], Some(locks[f]))] == 1)
    && (forall e | e in b :: e.key.File() in locks && e == Entry(locks[e.key.File()], Some(locks[e.key.File()])))
  }

  /** key_hash has one entry per holder, naming the Lock of the file it holds. */
  ghost predicate KeysOf(b: multiset<Entry<Word, Lock>>, locks: map<FileId, Lock>, holds: map<FileId, Hold>) {
    locks.Keys == holds.Keys && NoneDangles(b, locks) && forall f | f in holds :: HeldBy(b, locks[f], f, holds[f])
  }

  /** Every entry names the Lock of a file that is held. */
  ghost predicate NoneDangles(b: multiset<Entry<Word, Lock>>, locks: map<FileId, Lock>) {
    forall e | e in b :: e.data.Some? && Names(locks, e.data.value)
  }

  ghost predicate Names(locks: map<FileId, Lock>, l: Lock) {
    l.File() in locks && locks[l.File()] == l
  }

  /** The entries of key_hash that name the Lock are those of its holders. */
  ghost predicate HeldBy(b: multiset<Entry<Word, Lock>>, l: Lock, f: FileId, hold: Hold) {
    l.File() == f && |Ids(hold)| > 0 && forall id :: b[Entry(id, Some(l))] == Ids(hold)[id]
  }

  /** Every held file has one Lock, whose readers field says how it is held. */
  ghost predicate CountedOf(locks: map<FileId, Lock>, holds: map<FileId, Hold>)
    reads locks.Values`readers
  {
    && locks.Keys == holds.Keys
    && forall f | f in holds :: locks[f].File() == f && locks[f].readers == Field(holds[f])
  }

  lemma CountedAdd(locks: map<FileId, Lock>, holds: map<FileId, Hold>, l: Lock, hold: Hold)
    requires CountedOf(locks, holds) && l.File() !in holds && l.readers == Field(hold)
    ensures CountedOf(locks[l.File() := l], holds[l.File() := hold])
  {
    hide Field;
  }

  lemma ObjectsAdd(b: multiset<Entry<Lock, Lock>>, locks: map<FileId, Lock>, l: Lock)
    requires ObjectsOf(b, locks) && l.File() !in locks
    ensures ObjectsOf(b + multiset{Entry(l, Some(l))}, locks[l.File() := l])
  {
    assert Entry(l, Some(l)) !in b;
  }

  /** One more holder of a file that is held. */
  lemma KeysMore(b: multiset<Entry<Word, Lock>>, locks: map<FileId, Lock>, holds: map<FileId, Hold>, fd: Word,
      l: Lock, hold: Hold)
    requires KeysOf(b, locks, holds) && Names(locks, l)
    requires l.File() in holds && Ids(hold) == Ids(holds[l.File()]) + multiset{fd}
    ensures KeysOf(b + multiset{Entry(fd, Some(l))}, locks, holds[l.File() := hold])
  {
    hide Ids;
    var f, e := l.File(), Entry(fd, Some(l));
    assert HeldBy(b, locks[f], f, holds[f]);
    assert fd in Ids(hold);
    forall g | g in holds && g != f ensures HeldBy(b + multiset{e}, locks[g], g, holds[g]) {
      assert HeldBy(b, locks[g], g, holds[g]);
    }
  }

  /** The first holder of a file. */
  lemma KeysFirst(b: multiset<Entry<Word, Lock>>, locks: map<FileId, Lock>, holds: map<FileId, Hold>, fd: Word,
      l: Lock, hold: Hold)
    requires KeysOf(b, locks, holds) && l.File() !in holds && Ids(hold) == multiset{fd}
    ensures KeysOf(b + multiset{Entry(fd, Some(l))}, locks[l.File() := l], holds[l.File() := hold])
  {
    hide Ids, HeldBy;
    var f, e := l.File(), Entry(fd, Some(l));
    var b', locks' := b + multiset{e}, locks[f := l];
    assert HeldBy(b', l, f, hold) by { HeldFirst(b, locks, fd, l, hold); }
    forall g | g in holds ensures HeldBy(b', locks'[g], g, holds[g]) {
      assert HeldBy(b, locks[g], g, holds[g]);
      LockFileIs(b, locks[g], g, holds[g]);
      HeldStill(b, e, locks[g], g, holds[g]);
    }
    assert NoneDangles(b', locks');
  }

  lemma HeldFirst(b: multiset<Entry<Word, Lock>>, locks: map<FileId, Lock>, fd: Word, l: Lock, hold: Hold)
    requires NoneDangles(b, locks) && l.File() !in locks && Ids(hold) == multiset{fd}
    ensures HeldBy(b + multiset{Entry(fd, Some(l))}, l, l.File(), hold)
  {
    hide Ids;
    forall id ensures b[Entry(id, Some(l))] == 0 {
      assert Entry(id, Some(l)) !in b;
    }
  }

  lemma HeldStill(b: multiset<Entry<Word, Lock>>, e: Entry<Word, Lock>, l: Lock, f: FileId, hold: Hold)
    requires HeldBy(b, l, f, hold) && e.data != Some(l)
    ensures HeldBy(b + multiset{e}, l, f, hold)
  {
    hide Ids;
    forall id ensures (b + multiset{e})[Entry(id, Some(l))] == Ids(hold)[id] {
      assert Entry(id, Some(l)) != e;
    }
  }

  lemma HeldOther(b: multiset<Entry<Word, Lock>>, b': multiset<Entry<Word, Lock>>, e: Entry<Word, Lock>, l: Lock,
      f: FileId, hold: Hold)
    requires HeldBy(b, l, f, hold) && b == b' + multiset{e} && e.data != Some(l)
    ensures HeldBy(b', l, f, hold)
  {
    forall id ensures b'[Entry(id, Some(l))] == Ids(hold)[id] {
      assert Entry(id, Some(l)) != e;
    }
  }

  lemma HeldLess(b: multiset<Entry<Word, Lock>>, b': multiset<Entry<Word, Lock>>, fd: Word, l: Lock, f: FileId,
      hold: Hold)
    requires HeldBy(b, l, f, hold) && b == b' + multiset{Entry(fd, Some(l))}
    ensures forall id :: b'[Entry(id, Some(l))] == (Ids(hold) - multiset{fd})[id]
  {
    hide Ids;
    assert Entry(fd, Some(l)) in b;
    forall id ensures b'[Entry(id, Some(l))] == (Ids(hold) - multiset{fd})[id] {
      assert b[Entry(id, Some(l))] == Ids(hold)[id];
    }
  }

  /** A file loses its last holder, and its Lock with it. */
  lemma KeysLast(b: multiset<Entry<Word, Lock>>, b': multiset<Entry<Word, Lock>>, locks: map<FileId, Lock>,
                 holds: map<FileId, Hold>, fd: Word, l: Lock)
    requires KeysOf(b, locks, holds) && b == b' + multiset{Entry(fd, Some(l))} && Names(locks, l)
    requires l.File() in holds && |Ids(holds[l.File()]) - multiset{fd}| == 0
    ensures KeysOf(b', locks - {l.File()}, holds - {l.File()})
  {
    hide Ids, HeldBy;
    var f, left := l.File(), Ids(holds[l.File()]) - multiset{fd};
    HeldLess(b, b', fd, l, f, holds[f]);
    forall g | g in holds && g != f ensures HeldBy(b', locks[g], g, holds[g]) {
      assert locks[g] != l by { LockFileIs(b, locks[g], g, holds[g]); }
      HeldOther(b, b', Entry(fd, Some(l)), locks[g], g, holds[g]);
    }
    StillNamed(b, b', locks, Entry(fd, Some(l)));
    forall e | e in b' ensures e.data.Some? && Names(locks - {f}, e.data.value) {
      assert left[e.key] == 0;
      assert e == Entry(e.key, e.data);
    }
  }

  lemma LockFileIs(b: multiset<Entry<Word, Lock>>, l: Lock, f: FileId, hold: Hold)
    requires HeldBy(b, l, f, hold)
    ensures l.File() == f
  {
  }

  /** A file loses a holder, but not the last. */
  lemma KeysLess(b: multiset<Entry<Word, Lock>>, b': multiset<Entry<Word, Lock>>, locks: map<FileId, Lock>,
                 holds: map<FileId, Hold>, fd: Word, l: Lock, hold: Hold)
    requires KeysOf(b, locks, holds) && b == b' + multiset{Entry(fd, Some(l))} && Names(locks, l)
    requires l.File() in holds && Ids(hold) == Ids(holds[l.File()]) - multiset{fd} && |Ids(hold)| > 0
    ensures KeysOf(b', locks, holds[l.File() := hold])
  {
    hide Ids, HeldBy;
    var f := l.File();
    var holds' := holds[f := hold];
    HeldLess(b, b', fd, l, f, holds[f]);
    HeldIs(b', l, f, hold);
    StillNamed(b, b', locks, Entry(fd, Some(l)));
    forall g | g in holds' ensures HeldBy(b', locks[g], g, holds'[g]) {
      if g != f {
        assert locks[g] != l by { LockFileIs(b, locks[g], g, holds[g]); }
        HeldOther(b, b', Entry(fd, Some(l)), locks[g], g, holds[g]);
      }
    }
  }

  lemma HeldIs(b: multiset<Entry<Word, Lock>>, l: Lock, f: FileId, hold: Hold)
    requires l.File() == f && |Ids(hold)| > 0 && forall id :: b[Entry(id, Some(l))] == Ids(hold)[id]
    ensures HeldBy(b, l, f, hold)
  {
  }

  lemma StillNamed(b: multiset<Entry<Word, Lock>>, b': multiset<Entry<Word, Lock>>, locks: map<FileId, Lock>,
      e: Entry<Word, Lock>)
    requires NoneDangles(b, locks) && b == b' + multiset{e}
    ensures NoneDangles(b', locks)
  {
    forall d | d in b' ensures d.data.Some? && Names(locks, d.data.value) {
      assert d in b;
    }
  }

  lemma ObjectsLess(b: multiset<Entry<Lock, Lock>>, b': multiset<Entry<Lock, Lock>>, locks: map<FileId, Lock>, l: Lock)
    requires ObjectsOf(b, locks) && b == b' + multiset{Entry(l, Some(l))} && Names(locks, l)
    ensures ObjectsOf(b', locks - {l.File()})
  {
    assert b'[Entry(l, Some(l))] == 0;
    forall e | e in b' ensures e.key.File() in locks - {l.File()} {
      assert e in b;
    }
  }

  class FileLocking {
    const objHash: HashTable<Lock, FileId, Lock>
    const keyHash: HashTable<Word, Word, Lock>
    ghost var holds: map<FileId, Hold>
    ghost var locks: map<FileId, Lock>

    /** Every held file has one Lock, whose readers field says how it is held. */
    ghost predicate Counted()
      reads this`holds, this`locks, locks.Values`readers
    {
      CountedOf(locks, holds)
    }

    /** The two tables are well-formed and share no memory. */
    ghost predicate Tables()
      reads objHash, objHash.buckets, objHash.buckets.dir, objHash.buckets.segs, objHash.cells
      reads keyHash, keyHash.buckets, keyHash.buckets.dir, keyHash.buckets.segs, keyHash.cells
    {
      && objHash.Repr() !! keyHash.Repr() && objHash.Valid() && keyHash.Valid()
      && objHash.id == LockKey && keyHash.id == WordKey
    }

    /** Whatever the tables gained is new memory. */
    twostate predicate Grown()
      reads objHash`cells, objHash.buckets`segs, keyHash`cells, keyHash.buckets`segs
    {
      && fresh(objHash.cells - old(objHash.cells)) && fresh(keyHash.cells - old(keyHash.cells))
      && (forall s | s in objHash.buckets.segs :: s in old(objHash.buckets.segs) || fresh(s))
      && (forall s | s in keyHash.buckets.segs :: s in old(keyHash.buckets.segs) || fresh(s))
    }

    ghost predicate Valid()
      reads this, locks.Values
      reads objHash, objHash.buckets, objHash.buckets.dir, objHash.buckets.segs, objHash.cells
      reads keyHash, keyHash.buckets, keyHash.buckets.dir, keyHash.buckets.segs, keyHash.cells
    {
      && Tables() && Counted()
      && ObjectsOf(objHash.Contents(), locks) && KeysOf(keyHash.Contents(), locks, holds)
    }

    // ----- The table operations, each seen from both tables -----

    method InsertObj(lock: Lock)
      requires Tables()
      modifies objHash, objHash.buckets, objHash.buckets.dir, objHash.buckets.segs, objHash.cells
      ensures Tables() && Grown()
      ensures objHash.Contents() == old(objHash.Contents()) + multiset{Entry(lock, Some(lock))}
      ensures keyHash.Contents() == old(keyHash.Contents())
      ensures keyHash.cells == old(keyHash.cells) && keyHash.buckets.segs == old(keyHash.buckets.segs)
    {
      hide HashTable.Valid, HashTable.Contents;
      objHash.Insert(lock, Some(lock));
    }

    method InsertKey(fd: Word, lock: Lock)
      requires Tables()
      modifies keyHash, keyHash.buckets, keyHash.buckets.dir, keyHash.buckets.segs, keyHash.cells
      ensures Tables() && Grown()
      ensures keyHash.Contents() == old(keyHash.Contents()) + multiset{Entry(fd, Some(lock))}
      ensures objHash.Contents() == old(objHash.Contents())
      ensures objHash.cells == old(objHash.cells) && objHash.buckets.segs == old(objHash.buckets.segs)
    {
      hide HashTable.Valid, HashTable.Contents;
      keyHash.Insert(fd, Some(lock));
    }

    method InsertBoth(fd: Word, lock: Lock)
      requires Tables()
      modifies objHash, objHash.buckets, objHash.buckets.dir, objHash.buckets.segs, objHash.cells
      modifies keyHash, keyHash.buckets, keyHash.buckets.dir, keyHash.buckets.segs, keyHash.cells
      ensures Tables() && Grown()
      ensures objHash.Contents() == old(objHash.Contents()) + multiset{Entry(lock, Some(lock))}
      ensures keyHash.Contents() == old(keyHash.Contents()) + multiset{Entry(fd, Some(lock))}
    {
      hide Tables, HashTable.Contents, HashTable.Repr;
      InsertObj(lock);
      InsertKey(fd, lock);
    }

    /** The entry of key_hash that a lookup or a removal of `fd` picks. */
    ghost function Holder(fd: Word): Option<Entry<Word, Lock>>
      requires keyHash.Numbers() && |keyHash.entries| == keyHash.bcount
      reads keyHash`split, keyHash`max, keyHash`mask1, keyHash`mask2, keyHash`bcount, keyHash`level, keyHash`entries
    {
      keyHash.Pick(fd, None)
    }

    method LookupKey(fd: Word) returns (r: Option<Lock>)
      requires Tables()
      ensures keyHash.Numbers() && |keyHash.entries| == keyHash.bcount
      ensures Holder(fd).Some? ==>
                Holder(fd).value in keyHash.Contents() && Holder(fd).value.key == fd && r == Holder(fd).value.data
      ensures Holder(fd).None? ==> r == None && forall e | e in keyHash.Contents() :: e.key != fd
    {
      hide HashTable.Valid, HashTable.Contents, HashTable.Repr, HashTable.Pick, HashTable.Numbers;
      ghost var hit;
      r, hit := keyHash.Lookup(fd);
    }

    method RemoveKey(fd: Word)
      requires Tables() && keyHash.Numbers() && |keyHash.entries| == keyHash.bcount && Holder(fd).Some?
      modifies keyHash, keyHash.buckets, keyHash.buckets.dir, keyHash.buckets.segs, keyHash.cells
      ensures Tables() && objHash.Contents() == old(objHash.Contents())
      ensures old(keyHash.Contents()) == keyHash.Contents() + multiset{old(Holder(fd)).value}
      ensures objHash.cells == old(objHash.cells) && objHash.buckets.segs == old(objHash.buckets.segs)
      ensures keyHash.Repr() == old(keyHash.Repr())
    {
      hide HashTable.Valid, HashTable.Contents, HashTable.Pick, HashTable.Numbers;
      ghost var hit;
      var r;
      r, hit := keyHash.Remove(fd, None);
    }

    method RemoveObj(lock: Lock)
      requires Tables() && ObjectsOf(objHash.Contents(), locks) && Names(locks, lock)
      modifies objHash, objHash.buckets, objHash.buckets.dir, objHash.buckets.segs, objHash.cells
      ensures Tables() && keyHash.Contents() == old(keyHash.Contents())
      ensures old(objHash.Contents()) == objHash.Contents() + multiset{Entry(lock, Some(lock))}
      ensures keyHash.cells == old(keyHash.cells) && keyHash.buckets.segs == old(keyHash.buckets.segs)
      ensures unchanged(keyHash) && objHash.Repr() == old(objHash.Repr())
    {
      hide HashTable.Valid, HashTable.Contents;
      ghost var hit, b := None, objHash.Contents();
      var r;
      r, hit := objHash.Remove(lock, None);
      assert b[Entry(lock, Some(lock))] == 1;
      assert Entry(lock, Some(lock)) in b;
    }

    /** initFileLocking */
    constructor ()
      ensures Valid() && holds == map[] && fresh(objHash.Repr() + keyHash.Repr())
    {
      hide HashTable.Valid, HashTable.Contents, HashTable.Repr;
      var o, k := NewTables();
      objHash, keyHash := o, k;
      holds, locks := map[], map[];
      ghost var used := o.Repr() + k.Repr();
      assert forall x | x in used :: allocated(x);
      new;
      assert this !in used;
    }

    // ----- Locking -----

    lemma Opened()
      requires Valid()
      ensures Tables() && Counted() && ObjectsOf(objHash.Contents(), locks) && KeysOf(keyHash.Contents(), locks, holds)
      ensures locks.Keys == holds.Keys
    {
      hide Tables, HashTable.Contents, ObjectsOf, KeysOf;
    }

    lemma Together()
      requires Tables() && Counted() && ObjectsOf(objHash.Contents(), locks) && KeysOf(keyHash.Contents(), locks, holds)
      ensures Valid()
    {
      hide Tables, HashTable.Contents, ObjectsOf, KeysOf;
    }

    /** The first holder of a file. */
    method NewHold(fd: Word, dev: Word, ino: Word, forWriting: bool)
      requires Valid() && (dev, ino) !in holds
      modifies this`holds, this`locks
      modifies objHash, objHash.buckets, objHash.buckets.dir, objHash.buckets.segs, objHash.cells
      modifies keyHash, keyHash.buckets, keyHash.buckets.dir, keyHash.buckets.segs, keyHash.cells
      ensures Valid() && Grown() && fresh(locks.Values - old(locks.Values))
      ensures holds == Taken(old(holds), (dev, ino), fd, forWriting)
    {
      hide Valid, Tables, HashTable.Contents, HashTable.Repr, ObjectsOf, KeysOf, Field, Ids, Taken;
      Opened();
      var lock := new Lock(dev, ino, if forWriting then -1 else 1);
      TakenFacts(lock, fd, forWriting);
      Enter(fd, lock, Taken(holds, (dev, ino), fd, forWriting)[(dev, ino)]);
    }

    method Enter(fd: Word, lock: Lock, ghost hold: Hold)
      requires Valid() && lock.File() !in holds
      requires lock.readers == Field(hold) && Ids(hold) == multiset{fd}
      modifies this`holds, this`locks
      modifies objHash, objHash.buckets, objHash.buckets.dir, objHash.buckets.segs, objHash.cells
      modifies keyHash, keyHash.buckets, keyHash.buckets.dir, keyHash.buckets.segs, keyHash.cells
      ensures Valid() && Grown()
      ensures holds == old(holds)[lock.File() := hold] && locks == old(locks)[lock.File() := lock]
    {
      hide Valid, Tables, Grown, HashTable.Contents, HashTable.Repr, ObjectsOf, KeysOf, CountedOf, Field, Ids;
      Opened();
      ObjectsAdd(objHash.Contents(), locks, lock);
      KeysFirst(keyHash.Contents(), locks, holds, fd, lock, hold);
      CountedAdd(locks, holds, lock, hold);
      InsertBoth(fd, lock);
      locks, holds := locks[lock.File() := lock], holds[lock.File() := hold];
      Together();
    }

    method AddReader(fd: Word, lock: Lock, ghost hold: Hold)
      requires Valid() && Names(locks, lock) && lock.File() in holds
      requires Ids(hold) == Ids(holds[lock.File()]) + multiset{fd} && Field(hold) == lock.readers + 1
      modifies this`holds, lock`readers
      modifies keyHash, keyHash.buckets, keyHash.buckets.dir, keyHash.buckets.segs, keyHash.cells
      ensures Valid() && Grown()
      ensures holds == old(holds)[lock.File() := hold]
    {
      hide Valid, Tables, Grown, Counted, HashTable.Contents, HashTable.Repr, ObjectsOf, KeysOf, Field, Ids;
      Opened();
      KeysMore(keyHash.Contents(), locks, holds, fd, lock, hold);
      InsertKey(fd, lock);
      CountUp(lock, hold);
      Together();
    }

    method CountUp(lock: Lock, ghost hold: Hold)
      requires Counted() && Names(locks, lock) && lock.File() in holds && Field(hold) == lock.readers + 1
      modifies this`holds, lock`readers
      ensures Counted() && holds == old(holds)[lock.File() := hold]
    {
      lock.readers := lock.readers + 1;
      holds := holds[lock.File() := hold];
    }

    /** What a granted request adds. */
    lemma TakenFacts(lock: Lock, fd: Word, forWriting: bool)
      requires Counted() && Granted(holds, lock.File(), forWriting)
               && (lock.File() in locks ==> locks[lock.File()] == lock)
      ensures Taken(holds, lock.File(), fd, forWriting) ==
              holds[lock.File() := Taken(holds, lock.File(), fd, forWriting)[lock.File()]]
      ensures var f, hold := lock.File(), Taken(holds, lock.File(), fd, forWriting)[lock.File()];
              if f in holds then Ids(hold) == Ids(holds[f]) + multiset{fd} && Field(hold) == lock.readers + 1
              else Ids(hold) == multiset{fd} && Field(hold) == if forWriting then -1 else 1
    {
      var f := lock.File();
      if f in holds {
        assert locks[f].readers == Field(holds[f]);
      } else {
        assert multiset{} + multiset{fd} == multiset{fd};
      }
    }

    method LookupObj(key: Lock) returns (r: Option<Lock>)
      requires Tables() && ObjectsOf(objHash.Contents(), locks)
      ensures r == if key.File() in locks then Some(locks[key.File()]) else None
      ensures r.Some? ==> Names(locks, r.value) && r.value.File() == key.File()
    {
      hide HashTable.Valid, HashTable.Contents;
      ghost var hit, b := None, objHash.Contents();
      r, hit := objHash.Lookup(key);
      if key.File() in locks {
        var e := Entry(locks[key.File()], Some(locks[key.File()]));
        assert b[e] == 1;
        assert e in b && LockKey(e.key) == LockKey(key);
      }
    }

    /** lockFile: 0 if the lock is granted, -1 if not. */
    method LockFile(fd: Word, dev: Word, ino: Word, forWriting: bool) returns (r: int)
      requires Valid()
      modifies this`holds, this`locks, locks.Values`readers
      modifies objHash, objHash.buckets, objHash.buckets.dir, objHash.buckets.segs, objHash.cells
      modifies keyHash, keyHash.buckets, keyHash.buckets.dir, keyHash.buckets.segs, keyHash.cells
      ensures Valid() && Grown() && fresh(locks.Values - old(locks.Values))
      ensures r == if Granted(old(holds), (dev, ino), forWriting) then 0 else -1
      ensures holds == if r == 0 then Taken(old(holds), (dev, ino), fd, forWriting) else old(holds)
      ensures r == if (dev, ino) !in old(holds) || (!forWriting && old(holds)[(dev, ino)].Readers?) then 0 else -1
      ensures r == 0 && forWriting ==> holds == old(holds)[(dev, ino) := Writer(fd)]
      ensures r == 0 && !forWriting && (dev, ino) !in old(holds) ==>
                holds == old(holds)[(dev, ino) := Readers(multiset{fd})]
      ensures r == 0 && !forWriting && (dev, ino) in old(holds) ==>
                holds == old(holds)[(dev, ino) := Readers(old(holds)[(dev, ino)].ids + multiset{fd})]
    {
      hide Valid, Tables, HashTable.Contents, HashTable.Repr, ObjectsOf, KeysOf, Counted, Granted, Taken, Field, Ids;
      var lock := LookupFile(dev, ino);
      GrantMeans(holds, (dev, ino), fd, forWriting);
      r := Decide(fd, dev, ino, forWriting, lock);
    }

    lemma GrantMeans(hs: map<FileId, Hold>, file: FileId, fd: Word, forWriting: bool)
      ensures Granted(hs, file, forWriting) <==> (file !in hs || (!forWriting && hs[file].Readers?))
      ensures Granted(hs, file, forWriting) ==>
                && (forWriting ==> Taken(hs, file, fd, forWriting) == hs[file := Writer(fd)])
                && (!forWriting && file !in hs ==> Taken(hs, file, fd, forWriting) == hs[file := Readers(multiset{fd})])
                && (!forWriting && file in hs ==>
                      Taken(hs, file, fd, forWriting) == hs[file := Readers(hs[file].ids + multiset{fd})])
    {
      assert multiset{} + multiset{fd} == multiset{fd};
    }

    /** The rest of lockFile, with the Lock that the file has already. */
    method Decide(fd: Word, dev: Word, ino: Word, forWriting: bool, lock: Option<Lock>) returns (r: int)
      requires Valid() && lock.Some? == ((dev, ino) in holds)
      requires lock.Some? ==> Names(locks, lock.value) && lock.value.File() == (dev, ino)
                              && (lock.value.readers < 0 <==> holds[(dev, ino)].Writer?)
      modifies this`holds, this`locks, locks.Values`readers
      modifies objHash, objHash.buckets, objHash.buckets.dir, objHash.buckets.segs, objHash.cells
      modifies keyHash, keyHash.buckets, keyHash.buckets.dir, keyHash.buckets.segs, keyHash.cells
      ensures Valid() && Grown() && fresh(locks.Values - old(locks.Values))
      ensures r == if Granted(old(holds), (dev, ino), forWriting) then 0 else -1
      ensures holds == if r == 0 then Taken(old(holds), (dev, ino), fd, forWriting) else old(holds)
    {
      hide Valid, Tables, HashTable.Contents, HashTable.Repr, ObjectsOf, KeysOf, Counted, Taken, Field, Ids;
      match lock
      case None =>
        NewHold(fd, dev, ino, forWriting);
        return 0;
      case Some(l) =>
        if forWriting || l.readers < 0 {
          return -1;
        }
        Join(fd, l);
        return 0;
    }

    /** One more reader of a file that is held for reading. */
    method Join(fd: Word, lock: Lock)
      requires Valid() && Names(locks, lock) && lock.File() in holds && holds[lock.File()].Readers?
      modifies this`holds, lock`readers
      modifies keyHash, keyHash.buckets, keyHash.buckets.dir, keyHash.buckets.segs, keyHash.cells
      ensures Valid() && Grown()
      ensures holds == Taken(old(holds), lock.File(), fd, false)
    {
      hide Tables, HashTable.Contents, HashTable.Repr, ObjectsOf, KeysOf, Taken, Field, Ids;
      TakenFacts(lock, fd, false);
      AddReader(fd, lock, Taken(holds, lock.File(), fd, false)[lock.File()]);
    }

    /** unlockFile: 1 if the descriptor holds no file; otherwise one of its holds ends, and with the last
        holder of a file goes the Lock. */
    method UnlockFile(fd: Word) returns (r: int, ghost file: Option<FileId>)
      requires Valid()
      modifies this`holds, this`locks, locks.Values`readers
      modifies objHash, objHash.buckets, objHash.buckets.dir, objHash.buckets.segs, objHash.cells
      modifies keyHash, keyHash.buckets, keyHash.buckets.dir, keyHash.buckets.segs, keyHash.cells
      ensures Valid() && locks.Values <= old(locks.Values)
      ensures objHash.Repr() == old(objHash.Repr()) && keyHash.Repr() == old(keyHash.Repr())
      ensures r == if file.Some? then 0 else 1
      ensures file.None? ==> holds == old(holds) && forall f | f in holds :: fd !in Ids(holds[f])
      ensures file.Some? ==> file.value in old(holds) && fd in Ids(old(holds)[file.value])
                             && holds == Released(old(holds), file.value, fd)
      ensures file.Some? ==>
                var f, h := file.value, old(holds)[file.value];
                if h == Writer(fd) || h == Readers(multiset{fd}) then holds == old(holds) - {f}
                else h.Readers? && holds == old(holds)[f := Readers(h.ids - multiset{fd})]
    {
      hide Valid, Tables, HashTable.Contents, HashTable.Repr, HashTable.Numbers, ObjectsOf, KeysOf, Holder, Released,
           Field, Ids;
      Opened();
      var found := LookupKey(fd);
      HolderMeans(fd);
      if found == None {
        return 1, None;
      }
      ReleaseMeans(holds, found.value.File(), fd);
      LetGo(fd, found.value);
      return 0, Some(found.value.File());
    }

    lemma ReleaseMeans(hs: map<FileId, Hold>, f: FileId, fd: Word)
      requires f in hs && fd in Ids(hs[f])
      ensures if hs[f] == Writer(fd) || hs[f] == Readers(multiset{fd}) then Released(hs, f, fd) == hs - {f}
              else hs[f].Readers? && Released(hs, f, fd) == hs[f := Readers(hs[f].ids - multiset{fd})]
    {
      var left := Ids(hs[f]) - multiset{fd};
      assert Ids(hs[f]) == left + multiset{fd};
      if |left| == 0 { assert left == multiset{}; }
    }

    /** One hold of the file of `lock` ends. */
    method LetGo(fd: Word, lock: Lock)
      requires Tables() && Counted() && ObjectsOf(objHash.Contents(), locks) && KeysOf(keyHash.Contents(), locks, holds)
      requires keyHash.Numbers() && |keyHash.entries| == keyHash.bcount && Holder(fd) == Some(Entry(fd, Some(lock)))
      requires Names(locks, lock) && lock.File() in holds && fd in Ids(holds[lock.File()])
      modifies this`holds, this`locks, lock`readers
      modifies objHash, objHash.buckets, objHash.buckets.dir, objHash.buckets.segs, objHash.cells
      modifies keyHash, keyHash.buckets, keyHash.buckets.dir, keyHash.buckets.segs, keyHash.cells
      ensures Valid() && locks.Values <= old(locks.Values) && holds == Released(old(holds), lock.File(), fd)
      ensures objHash.Repr() == old(objHash.Repr()) && keyHash.Repr() == old(keyHash.Repr())
    {
      hide Valid, Tables, HashTable.Contents, HashTable.Repr, HashTable.Numbers, ObjectsOf, KeysOf, CountedOf, Holder,
           Field, Ids;
      CountDown(lock, fd);
      if lock.readers == 0 {
        EndLock(fd, lock);
      } else {
        EndHold(fd, lock, Readers(Ids(holds[lock.File()]) - multiset{fd}));
      }
    }

    /** The readers field gets one step closer to zero. */
    method CountDown(lock: Lock, fd: Word)
      requires Counted() && Names(locks, lock) && lock.File() in holds && fd in Ids(holds[lock.File()])
      modifies lock`readers
      ensures var f := lock.File(); var left := Ids(holds[f]) - multiset{fd};
              && lock.readers == |left| && Ids(Readers(left)) == left
              && (if |left| == 0 then CountedOf(locks - {f}, holds - {f})
                  else CountedOf(locks, holds[f := Readers(left)]))
    {
      hide Ids;
      ReadersAfter(lock, fd);
      if lock.readers < 0 {
        lock.readers := lock.readers + 1;
      } else {
        lock.readers := lock.readers - 1;
      }
    }

    /** What the readers field becomes, and when it becomes zero. */
    lemma ReadersAfter(lock: Lock, fd: Word)
      requires Counted() && Names(locks, lock) && lock.File() in holds && fd in Ids(holds[lock.File()])
      ensures var f := lock.File(); var left := Ids(holds[f]) - multiset{fd};
              && (if lock.readers < 0 then lock.readers + 1 else lock.readers - 1) == |left|
              && Field(Readers(left)) == |left| && Ids(Readers(left)) == left
              && Released(holds, f, fd) == if |left| == 0 then holds - {f} else holds[f := Readers(left)]
    {
    }

    method RemoveBoth(fd: Word, lock: Lock)
      requires Tables() && ObjectsOf(objHash.Contents(), locks) && Names(locks, lock)
      requires keyHash.Numbers() && |keyHash.entries| == keyHash.bcount && Holder(fd) == Some(Entry(fd, Some(lock)))
      modifies objHash, objHash.buckets, objHash.buckets.dir, objHash.buckets.segs, objHash.cells
      modifies keyHash, keyHash.buckets, keyHash.buckets.dir, keyHash.buckets.segs, keyHash.cells
      ensures Tables()
      ensures old(objHash.Contents()) == objHash.Contents() + multiset{Entry(lock, Some(lock))}
      ensures old(keyHash.Contents()) == keyHash.Contents() + multiset{Entry(fd, Some(lock))}
      ensures objHash.Repr() == old(objHash.Repr()) && keyHash.Repr() == old(keyHash.Repr())
    {
      hide Tables, HashTable.Contents, HashTable.Numbers, ObjectsOf, Holder;
      RemoveObj(lock);
      RemoveKey(fd);
    }

    /** The Lock whose last holder goes: out of obj_hash, and freed. */
    method EndLock(fd: Word, lock: Lock)
      requires Tables() && ObjectsOf(objHash.Contents(), locks) && KeysOf(keyHash.Contents(), locks, holds)
      requires keyHash.Numbers() && |keyHash.entries| == keyHash.bcount && Holder(fd) == Some(Entry(fd, Some(lock)))
      requires Names(locks, lock) && lock.File() in holds && |Ids(holds[lock.File()]) - multiset{fd}| == 0
      requires CountedOf(locks - {lock.File()}, holds - {lock.File()})
      modifies this`holds, this`locks
      modifies objHash, objHash.buckets, objHash.buckets.dir, objHash.buckets.segs, objHash.cells
      modifies keyHash, keyHash.buckets, keyHash.buckets.dir, keyHash.buckets.segs, keyHash.cells
      ensures Valid() && locks == old(locks) - {lock.File()} && holds == old(holds) - {lock.File()}
      ensures objHash.Repr() == old(objHash.Repr()) && keyHash.Repr() == old(keyHash.Repr())
    {
      hide Valid, Tables, HashTable.Contents, HashTable.Repr, HashTable.Numbers, ObjectsOf, KeysOf, CountedOf, Holder,
           Field, Ids;
      RemoveBoth(fd, lock);
      ObjectsLess(old(objHash.Contents()), objHash.Contents(), locks, lock);
      KeysLast(old(keyHash.Contents()), keyHash.Contents(), locks, holds, fd, lock);
      locks, holds := locks - {lock.File()}, holds - {lock.File()};
      Together();
    }

    method EndHold(fd: Word, lock: Lock, ghost hold: Hold)
      requires Tables() && ObjectsOf(objHash.Contents(), locks) && KeysOf(keyHash.Contents(), locks, holds)
      requires keyHash.Numbers() && |keyHash.entries| == keyHash.bcount && Holder(fd) == Some(Entry(fd, Some(lock)))
      requires Names(locks, lock) && lock.File() in holds && CountedOf(locks, holds[lock.File() := hold])
      requires Ids(hold) == Ids(holds[lock.File()]) - multiset{fd} && |Ids(hold)| > 0
      modifies this`holds
      modifies keyHash, keyHash.buckets, keyHash.buckets.dir, keyHash.buckets.segs, keyHash.cells
      ensures Valid() && holds == old(holds)[lock.File() := hold]
      ensures objHash.Repr() == old(objHash.Repr()) && keyHash.Repr() == old(keyHash.Repr())
    {
      hide Valid, Tables, HashTable.Contents, HashTable.Repr, HashTable.Numbers, ObjectsOf, KeysOf, CountedOf, Holder,
           Field, Ids;
      RemoveKey(fd);
      KeysLess(old(keyHash.Contents()), keyHash.Contents(), locks, holds, fd, lock, hold);
      holds := holds[lock.File() := hold];
      Together();
    }

    /** The entry that holds for `fd` names the Lock of a file that it holds. */
    lemma HolderMeans(fd: Word)
      requires KeysOf(keyHash.Contents(), locks, holds) && keyHash.Numbers() && |keyHash.entries| == keyHash.bcount
      requires Holder(fd).Some? ==> Holder(fd).value in keyHash.Contents() && Holder(fd).value.key == fd
      requires Holder(fd).None? ==> forall e | e in keyHash.Contents() :: e.key != fd
      ensures Holder(fd).Some? ==>
                var e := Holder(fd).value;
                e.data.Some? && Names(locks, e.data.value) && e == Entry(fd, e.data)
                && e.data.value.File() in holds && fd in Ids(holds[e.data.value.File()])
      ensures Holder(fd).None? ==> forall f | f in holds :: fd !in Ids(holds[f])
    {
      hide HashTable.Contents, HashTable.Numbers, Holder, Ids;
      ghost var b := keyHash.Contents();
      if Holder(fd).Some? {
        var l := Holder(fd).value.data.value;
        assert HeldBy(b, locks[l.File()], l.File(), holds[l.File()]);
        assert b[Entry(fd, Some(l))] > 0;
      } else {
        forall f | f in holds ensures fd !in Ids(holds[f]) {
          assert HeldBy(b, locks[f], f, holds[f]);
          assert Entry(fd, Some(locks[f])) !in b;
        }
      }
    }

    method LookupFile(dev: Word, ino: Word) returns (r: Option<Lock>)
      requires Valid()
      ensures Valid() && Counted() && r == if (dev, ino) in holds then Some(locks[(dev, ino)]) else None
      ensures r.Some? ==> Names(locks, r.value) && r.value.File() == (dev, ino)
                          && (r.value.readers < 0 <==> holds[(dev, ino)].Writer?)
    {
      hide Tables, HashTable.Contents, HashTable.Repr, ObjectsOf, KeysOf;
      Opened();
      var key := new Lock(dev, ino, 0);
      r := LookupObj(key);
    }
  }

  method NewTables() returns (o: HashTable<Lock, FileId, Lock>, k: HashTable<Word, Word, Lock>)
    ensures fresh(o.Repr()) && fresh(k.Repr()) && o.Repr() !! k.Repr()
    ensures forall x | x in o.Repr() + k.Repr() :: allocated(x)
    ensures o.Valid() && o.Contents() == multiset{} && o.id == LockKey
    ensures k.Valid() && k.Contents() == multiset{} && k.id == WordKey
  {
    hide HashTable.Valid, HashTable.Contents;
    o := new HashTable(LockKey, HashLock);
    ghost var before := o.Repr();
    assert forall x | x in before :: allocated(x);
    k := new HashTable(WordKey, HashId);
  }
}
