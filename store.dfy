/**
 * The notice collection's persistence and its pure operations: browser
 * storage as a map from key to a stored value, the load-time choice between
 * stored list and seed, the write-through policy, deletion by id, and the
 * decimal id a creation clock read becomes.
 */
module Store {
  import opened Types
  import opened Seqs
  import opened Constants

  /** What a storage key may hold: the notice list or the cached session. */
  datatype Stored = NoticesJson(notices: seq<Notice>) | UserJson(user: User)

  type Storage = map<string, Stored>

  /** Each key holds the kind of value the component writes there. */
  predicate WellTyped(st: Storage) {
    (StorageKey in st ==> st[StorageKey].NoticesJson?) &&
    (AuthKey in st ==> st[AuthKey].UserJson?)
  }

  /** The startup load: the stored list when one is present, else the seed. */
  function LoadNotices(st: Storage, now: int): seq<Notice>
    requires WellTyped(st)
  {
    if StorageKey in st then st[StorageKey].notices else Seed(now)
  }

  /** The startup session restore: whatever user is cached, unvalidated. */
  function RestoreSession(st: Storage): Option<User>
    requires WellTyped(st)
  {
    if AuthKey in st then Some(st[AuthKey].user) else None
  }

  /** The write-through step run after the list changes: it writes only a non-empty list. */
  function Persisted(st: Storage, ns: seq<Notice>): (r: Storage)
    requires WellTyped(st)
    ensures WellTyped(r)
    ensures AuthKey in r <==> AuthKey in st
    ensures AuthKey in st ==> r[AuthKey] == st[AuthKey]
    ensures |ns| == 0 ==> r == st
  {
    KeysDistinct();
    if |ns| > 0 then st[StorageKey := NoticesJson(ns)] else st
  }

  /** After a write of a non-empty list, a restart loads exactly that list. */
  lemma PersistThenLoad(st: Storage, ns: seq<Notice>, now: int)
    requires WellTyped(st) && |ns| > 0
    ensures LoadNotices(Persisted(st, ns), now) == ns
    ensures RestoreSession(Persisted(st, ns)) == RestoreSession(st)
  {
  }

  /**
   * After the list becomes empty nothing is written, so a restart loads
   * what was stored before, or the seed when nothing was.
   */
  lemma ReloadAfterEmptying(st: Storage, now: int)
    requires WellTyped(st)
    ensures LoadNotices(Persisted(st, []), now) == LoadNotices(st, now)
    ensures StorageKey !in st ==> LoadNotices(Persisted(st, []), now) == Seed(now)
  {
  }

  /**
   * A restart after signing in restores exactly the cached user; after
   * signing out it restores no session; writing the list leaves either as
   * it was.
   */
  lemma SessionRestart(st: Storage, u: User, ns: seq<Notice>)
    requires WellTyped(st)
    ensures WellTyped(st[AuthKey := UserJson(u)]) && WellTyped(st - {AuthKey})
    ensures RestoreSession(st[AuthKey := UserJson(u)]) == Some(u)
    ensures RestoreSession(st - {AuthKey}) == None
    ensures RestoreSession(Persisted(st, ns)) == RestoreSession(st)
  {
  }

  /** Caching or clearing the session leaves the stored list as it was. */
  lemma SessionWritesKeepNotices(st: Storage, u: User, now: int)
    requires WellTyped(st)
    ensures WellTyped(st[AuthKey := UserJson(u)]) && WellTyped(st - {AuthKey})
    ensures LoadNotices(st[AuthKey := UserJson(u)], now) == LoadNotices(st, now)
    ensures LoadNotices(st - {AuthKey}, now) == LoadNotices(st, now)
  {
    KeysDistinct();
  }

  /** The delete button's filter: every notice whose id differs from `id`, in order. */
  function RemoveId(ns: seq<Notice>, id: string): (r: seq<Notice>)
    ensures |r| <= |ns|
    ensures forall n :: n in r <==> n in ns && n.id != id
  {
    Keep(ns, (n: Notice) => n.id != id)
  }

  /** The notices carrying `id`, in order. */
  function WithId(ns: seq<Notice>, id: string): seq<Notice> {
    Keep(ns, (n: Notice) => n.id == id)
  }

  predicate UniqueIds(ns: seq<Notice>) {
    forall i, j :: 0 <= i < j < |ns| ==> ns[i].id != ns[j].id
  }

  /**
   * Deleting removes every notice with the id and keeps the others, each as
   * often as before and in their relative order.
   */
  lemma RemoveIdSpec(ns: seq<Notice>, id: string)
    ensures forall n :: n in RemoveId(ns, id) <==> n in ns && n.id != id
    ensures forall n :: multiset(RemoveId(ns, id))[n] == if n.id != id then multiset(ns)[n] else 0
    ensures forall a, b :: ns == a + b ==> RemoveId(ns, id) == RemoveId(a, id) + RemoveId(b, id)
  {
    KeepMultiset(ns, (n: Notice) => n.id != id);
    forall a, b | ns == a + b ensures RemoveId(ns, id) == RemoveId(a, id) + RemoveId(b, id) {
      KeepConcat(a, b, (n: Notice) => n.id != id);
    }
  }

  /** Deleting an id no notice carries changes nothing. */
  lemma RemoveAbsentId(ns: seq<Notice>, id: string)
    requires forall n :: n in ns ==> n.id != id
    ensures RemoveId(ns, id) == ns
  {
    KeepAll(ns, (n: Notice) => n.id != id);
  }

  /** Deleting shortens the list by the number of notices carrying the id. */
  lemma {:induction false} RemoveIdLength(ns: seq<Notice>, id: string)
    ensures |RemoveId(ns, id)| == |ns| - |WithId(ns, id)|
  {
    if ns != [] {
      RemoveIdLength(ns[1..], id);
    }
  }

  /** With unique ids, a present id is carried by exactly one notice. */
  lemma {:induction false} UniqueWithId(ns: seq<Notice>, id: string)
    requires UniqueIds(ns)
    ensures |WithId(ns, id)| == if exists n :: n in ns && n.id == id then 1 else 0
  {
    if ns != [] {
      var tail := ns[1..];
      assert UniqueIds(tail) by {
        forall i, j | 0 <= i < j < |tail| ensures tail[i].id != tail[j].id {
          assert tail[i] == ns[i + 1] && tail[j] == ns[j + 1];
        }
      }
      UniqueWithId(tail, id);
      if ns[0].id == id {
        forall n | n in tail ensures n.id != id {
          var j :| 0 <= j < |tail| && tail[j] == n;
          assert ns[j + 1] == n;
        }
        KeepNone(tail, (n: Notice) => n.id == id);
      } else {
        assert (exists n :: n in ns && n.id == id) <==> (exists n :: n in tail && n.id == id) by {
          assert ns == [ns[0]] + tail;
        }
      }
    }
  }

  /** With unique ids, deleting a present id makes the list exactly one shorter. */
  lemma RemoveUniqueId(ns: seq<Notice>, id: string)
    requires UniqueIds(ns)
    requires exists n :: n in ns && n.id == id
    ensures |RemoveId(ns, id)| == |ns| - 1
    ensures forall n :: n in RemoveId(ns, id) ==> n.id != id
  {
    RemoveIdLength(ns, id);
    UniqueWithId(ns, id);
  }

  /** The decimal digit for `d`. */
  function DigitChar(d: nat): char
    requires d < 10
  {
    "0123456789"[d]
  }

  /** The value of a decimal digit character. */
  function DigitValue(c: char): nat
    requires '0' <= c <= '9'
  {
    c as int - '0' as int
  }

  /** `Number.prototype.toString()` on a non-negative integer clock read: its decimal digits. */
  function NoticeId(clock: nat): (r: string)
    ensures |r| > 0
    ensures forall i :: 0 <= i < |r| ==> '0' <= r[i] <= '9'
    ensures clock == 0 ==> r == "0"
    ensures clock > 0 ==> r[0] != '0'
  {
    if clock < 10 then [DigitChar(clock)]
    else NoticeId(clock / 10) + [DigitChar(clock % 10)]
  }

  /** Reads a string of decimal digits back as a number. */
  function ParseDecimal(s: string): nat
    requires forall i :: 0 <= i < |s| ==> '0' <= s[i] <= '9'
  {
    if s == [] then 0
    else ParseDecimal(s[..|s| - 1]) * 10 + DigitValue(s[|s| - 1])
  }

  /** The id string determines the clock read it came from. */
  lemma {:induction false} NoticeIdRoundTrip(clock: nat)
    ensures ParseDecimal(NoticeId(clock)) == clock
  {
    if clock >= 10 {
      NoticeIdRoundTrip(clock / 10);
      var s := NoticeId(clock);
      assert s[..|s| - 1] == NoticeId(clock / 10);
    }
  }

  /** Distinct clock reads yield distinct ids, and equal ones equal ids. */
  lemma NoticeIdInjective(a: nat, b: nat)
    ensures NoticeId(a) == NoticeId(b) <==> a == b
  {
    NoticeIdRoundTrip(a);
    NoticeIdRoundTrip(b);
  }
}
