/** Internal keys, entries and what it means to read at a sequence number.

    The store only ever touches user keys through its comparator, so a user key is an element
    of a total order; the order used here is that of the integers.
 */
module InternalKeys {

  type UserKey = int

  type Bytes = string

  /** The largest sequence number: eight bits of the 64-bit tag are left for the kind. */
  const MAX_SEQUENCE: nat := 0xFF_FFFF_FFFF_FFFF

  type Seqno = n: nat | n <= MAX_SEQUENCE

  datatype Kind = Deletion | Value

  function KindByte(k: Kind): nat {
    if k.Deletion? then 0 else 1
  }

  datatype InternalKey = InternalKey(user: UserKey, seqno: Seqno, kind: Kind) {
    /** The trailing fixed64 of an encoded internal key. */
    function Tag(): nat {
      seqno * 256 + KindByte(kind)
    }
  }

  /** Increasing user key, then decreasing sequence number, then values before deletions. */
  predicate Less(a: InternalKey, b: InternalKey) {
    a.user < b.user || (a.user == b.user && Newer(a, b))
  }

  predicate Newer(a: InternalKey, b: InternalKey) {
    a.seqno > b.seqno || (a.seqno == b.seqno && a.kind.Value? && b.kind.Deletion?)
  }

  /** The comparator itself compares the packed tags, in decreasing order. */
  lemma NewerByTag(a: InternalKey, b: InternalKey)
    ensures Newer(a, b) <==> a.Tag() > b.Tag()
    ensures a == b <==> a.user == b.user && a.Tag() == b.Tag()
  {
  }

  /** The key a reader at snapshot `s` seeks to: no entry newer than `s` is at or after it. */
  function SeekKey(u: UserKey, s: Seqno): InternalKey {
    InternalKey(u, s, Value)
  }

  datatype Entry = Entry(user: UserKey, seqno: Seqno, kind: Kind, value: Bytes) {
    function Key(): InternalKey {
      InternalKey(user, seqno, kind)
    }
  }

  predicate Sorted(es: seq<Entry>) {
    forall i, j :: 0 <= i < j < |es| ==> Less(es[i].Key(), es[j].Key())
  }

  ghost function Elems(es: seq<Entry>): set<Entry> {
    set e | e in es
  }

  /** Position of the first entry at or after `k`: what Seek of a table or memtable iterator promises. */
  function LowerBound(es: seq<Entry>, k: InternalKey): (i: nat)
    requires Sorted(es)
    ensures i <= |es|
    ensures forall j :: 0 <= j < i ==> Less(es[j].Key(), k)
    ensures forall j :: i <= j < |es| ==> !Less(es[j].Key(), k)
    decreases |es|
  {
    if es == [] || !Less(es[|es| - 1].Key(), k) then
      if es == [] then 0 else LowerBound(es[..|es| - 1], k)
    else
      |es|
  }

  // ---------------------------------------------------------------------------------------------
  // Reading: the newest entry of a user key that is not newer than the snapshot
  // ---------------------------------------------------------------------------------------------

  datatype Hit = Miss | Hit(entry: Entry)

  /** What a reader is told: deletion markers and absent keys look the same. */
  datatype Answer = Found(value: Bytes) | NotFound

  function AnswerOf(h: Hit): Answer {
    if h.Hit? && h.entry.kind.Value? then Found(h.entry.value) else NotFound
  }

  predicate Visible(e: Entry, u: UserKey, s: Seqno) {
    e.user == u && e.seqno <= s
  }

  /** `h` is the newest entry of `u` in `S` with sequence number at most `s`, or there is none. */
  ghost predicate Newest(S: set<Entry>, u: UserKey, s: Seqno, h: Hit) {
    match h
    case Miss => forall e :: e in S ==> !Visible(e, u, s)
    case Hit(n) => n in S && Visible(n, u, s) && forall e :: e in S && Visible(e, u, s) ==> e.seqno <= n.seqno
  }

  /** No two entries carry one sequence number. */
  ghost predicate UniqueSeqnos(S: set<Entry>) {
    forall a, b :: a in S && b in S && a.seqno == b.seqno ==> a == b
  }

  lemma {:induction false} NewestExists(S: set<Entry>, u: UserKey, s: Seqno) returns (h: Hit)
    ensures Newest(S, u, s, h)
    decreases |S|
  {
    if e :| e in S {
      var rest := S - {e};
      var r := NewestExists(rest, u, s);
      if Visible(e, u, s) && (r.Miss? || r.entry.seqno < e.seqno) {
        h := Hit(e);
      } else {
        h := r;
      }
      assert forall x :: x in S ==> x == e || x in rest;
    } else {
      h := Miss;
    }
  }

  lemma NewestUnique(S: set<Entry>, u: UserKey, s: Seqno, h: Hit, g: Hit)
    requires UniqueSeqnos(S)
    requires Newest(S, u, s, h) && Newest(S, u, s, g)
    ensures h == g
  {
  }

  /** Every entry of `newer` is newer than every entry of `older` with the same user key. */
  ghost predicate Layered(newer: set<Entry>, older: set<Entry>) {
    forall a, b :: a in newer && b in older && a.user == b.user ==> a.seqno > b.seqno
  }

  /** Reading layer by layer, newest layer first, reads the union. */
  lemma NewestLayered(newer: set<Entry>, older: set<Entry>, u: UserKey, s: Seqno, h: Hit, g: Hit)
    requires Layered(newer, older)
    requires Newest(newer, u, s, h)
    requires h.Miss? ==> Newest(older, u, s, g)
    ensures Newest(newer + older, u, s, if h.Miss? then g else h)
  {
  }

  /** Lookup of one sorted run: seek, then keep the entry only if it has the right user key. */
  function Lookup(es: seq<Entry>, u: UserKey, s: Seqno): (h: Hit)
    requires Sorted(es)
    ensures Newest(Elems(es), u, s, h)
  {
    var i := LowerBound(es, SeekKey(u, s));
    if i < |es| && es[i].user == u then
      assert forall e :: e in es && Visible(e, u, s) ==> e.seqno <= es[i].seqno;
      Hit(es[i])
    else
      Miss
  }
}
