/** The iterator over user keys: it walks internal entries in both directions and shows one visible value per user key. */
module DbIterator {
  import opened InternalKeys
  import MergingIterator

  // ---------------------------------------------------------------------------------------------
  // What is shown
  // ---------------------------------------------------------------------------------------------

  predicate Seen(es: seq<Entry>, s: Seqno, i: nat)
    requires i < |es|
  {
    es[i].seqno <= s
  }

  /** Entry `i` is what a reader at `s` is shown for its user key: the first entry not too new, and a value. */
  ghost predicate Shown(es: seq<Entry>, s: Seqno, i: nat)
    requires i < |es|
  {
    && Seen(es, s, i) && es[i].kind.Value?
    && forall j :: 0 <= j < i && es[j].user == es[i].user ==> !Seen(es, s, j)
  }

  ghost predicate NoneShown(es: seq<Entry>, s: Seqno, from: nat, to: nat)
    requires to <= |es|
  {
    forall j :: from <= j < to ==> !Shown(es, s, j)
  }

  /** `at` is the first shown entry from `from` on; if not `valid` there is none. */
  ghost predicate FirstFrom(es: seq<Entry>, s: Seqno, from: nat, valid: bool, at: nat)
    requires from <= |es|
  {
    if valid then from <= at < |es| && Shown(es, s, at) && NoneShown(es, s, from, at) else NoneShown(es, s, from, |es|)
  }

  /** `at` is the last shown entry before `to`; if not `valid` there is none. */
  ghost predicate LastBefore(es: seq<Entry>, s: Seqno, to: nat, valid: bool, at: nat)
    requires to <= |es|
  {
    if valid then at < to && Shown(es, s, at) && NoneShown(es, s, at + 1, to) else NoneShown(es, s, 0, to)
  }

  lemma UsersOrdered(es: seq<Entry>, i: nat, j: nat)
    requires Sorted(es) && i <= j < |es|
    ensures es[i].user <= es[j].user
  {
    assert i < j ==> Less(es[i].Key(), es[j].Key());
  }

  /** No two shown entries have the same user key. */
  lemma ShownDistinct(es: seq<Entry>, s: Seqno, i: nat, j: nat)
    requires Sorted(es) && i < j < |es| && Shown(es, s, i) && Shown(es, s, j)
    ensures es[i].user < es[j].user
  {
    UsersOrdered(es, i, j);
  }

  // ---------------------------------------------------------------------------------------------
  // Scanning forward
  // ---------------------------------------------------------------------------------------------

  /** What the forward scan is asked: the first shown entry from `from` on, past user key `skip` if `skipping`. */
  datatype Scan = Scan(from: nat, skipping: bool, skip: UserKey) {
    ghost predicate Wants(e: Entry) {
      skipping ==> skip < e.user
    }

    ghost predicate NoneUpTo(es: seq<Entry>, s: Seqno, to: nat)
      requires to <= |es|
    {
      forall j :: from <= j < to && Wants(es[j]) ==> !Shown(es, s, j)
    }

    ghost predicate Result(es: seq<Entry>, s: Seqno, valid: bool, at: nat) {
      if valid then from <= at < |es| && Shown(es, s, at) && Wants(es[at]) && NoneUpTo(es, s, at)
      else NoneUpTo(es, s, |es|)
    }

    /** Visible entries before `i` that share a user key with entries from `i` on are to be skipped. */
    ghost predicate Fresh(es: seq<Entry>, s: Seqno, i: nat, skipping': bool, skip': UserKey) {
      forall j, k :: 0 <= j < i <= k < |es| && Seen(es, s, j) && es[j].user == es[k].user ==> skipping' && es[j].user <= skip'
    }

    /** A scan may start with this request. */
    ghost predicate Start(es: seq<Entry>, s: Seqno) {
      && Fresh(es, s, from, skipping, skip)
      && (skipping ==> forall j :: from <= j < |es| && Seen(es, s, j) ==> skip <= es[j].user)
    }

    /** The scan has come to `i` and now skips as `skipping'` and `skip'` say. */
    ghost predicate Inv(es: seq<Entry>, s: Seqno, i: nat, skipping': bool, skip': UserKey) {
      && from <= i <= |es| && Start(es, s) && Fresh(es, s, i, skipping', skip') && NoneUpTo(es, s, i)
      && (skipping ==> skipping' && skip <= skip')
      && (skipping' ==> (skipping && skip' == skip) || Met(es, s, i, skip'))
    }

    ghost predicate Met(es: seq<Entry>, s: Seqno, i: nat, u: UserKey)
      requires i <= |es|
    {
      exists d :: from <= d < i && Seen(es, s, d) && es[d].user == u
    }

    lemma MetIsNotShown(es: seq<Entry>, s: Seqno, i: nat, u: UserKey)
      requires Sorted(es) && i < |es| && Met(es, s, i, u) && es[i].user <= u
      ensures !Shown(es, s, i)
    {
      var d :| from <= d < i && Seen(es, s, d) && es[d].user == u;
      UsersOrdered(es, d, i);
    }

    lemma FreshStep(es: seq<Entry>, s: Seqno, i: nat, skipping': bool, skip': UserKey)
      requires i < |es| && Fresh(es, s, i, skipping', skip') && (Seen(es, s, i) ==> skipping' && es[i].user <= skip')
      ensures Fresh(es, s, i + 1, skipping', skip')
    {
    }

    /** What one turn of the scan does. */
    lemma Step(es: seq<Entry>, s: Seqno, i: nat, skipping': bool, skip': UserKey)
      requires Sorted(es) && Inv(es, s, i, skipping', skip') && i < |es|
      ensures if Seen(es, s, i) && es[i].kind.Deletion? then Inv(es, s, i + 1, true, es[i].user)
              else if !Seen(es, s, i) || (skipping' && es[i].user <= skip') then Inv(es, s, i + 1, skipping', skip')
              else Result(es, s, true, i)
    {
      if !Seen(es, s, i) {
        PassTooNew(es, s, i, skipping', skip');
      } else if es[i].kind.Deletion? {
        PassDeletion(es, s, i, skipping', skip');
      } else if skipping' && es[i].user <= skip' {
        PassHidden(es, s, i, skipping', skip');
      } else {
        Accept(es, s, i, skipping', skip');
      }
    }

    lemma Accept(es: seq<Entry>, s: Seqno, i: nat, skipping': bool, skip': UserKey)
      requires Sorted(es) && Inv(es, s, i, skipping', skip') && i < |es|
      requires Seen(es, s, i) && es[i].kind.Value? && !(skipping' && es[i].user <= skip')
      ensures Result(es, s, true, i)
    {
    }

    lemma PassTooNew(es: seq<Entry>, s: Seqno, i: nat, skipping': bool, skip': UserKey)
      requires Sorted(es) && Inv(es, s, i, skipping', skip') && i < |es| && !Seen(es, s, i)
      ensures Inv(es, s, i + 1, skipping', skip')
    {
      FreshStep(es, s, i, skipping', skip');
    }

    lemma PassHidden(es: seq<Entry>, s: Seqno, i: nat, skipping': bool, skip': UserKey)
      requires Sorted(es) && Inv(es, s, i, skipping', skip') && i < |es| && Seen(es, s, i) && skipping' && es[i].user <= skip'
      ensures Inv(es, s, i + 1, skipping', skip')
    {
      FreshStep(es, s, i, skipping', skip');
      if Met(es, s, i, skip') {
        MetIsNotShown(es, s, i, skip');
      }
    }

    lemma PassDeletion(es: seq<Entry>, s: Seqno, i: nat, skipping': bool, skip': UserKey)
      requires Sorted(es) && Inv(es, s, i, skipping', skip') && i < |es| && Seen(es, s, i) && es[i].kind.Deletion?
      ensures Inv(es, s, i + 1, true, es[i].user)
    {
      forall j | 0 <= j <= i ensures es[j].user <= es[i].user {
        UsersOrdered(es, j, i);
      }
    }
  }

  /** `at` is shown, has a user key of at least `target`, and none before it has; if not `valid` none has. */
  ghost predicate LandsAtOrAfter(es: seq<Entry>, s: Seqno, target: UserKey, valid: bool, at: nat) {
    if valid then
      && at < |es| && Shown(es, s, at) && target <= es[at].user
      && forall j :: 0 <= j < at && target <= es[j].user ==> !Shown(es, s, j)
    else
      forall j :: 0 <= j < |es| && target <= es[j].user ==> !Shown(es, s, j)
  }

  lemma SeekIsFresh(es: seq<Entry>, s: Seqno, target: UserKey, skip: UserKey)
    requires Sorted(es)
    ensures Scan(LowerBound(es, SeekKey(target, s)), false, skip).Start(es, s)
  {
    var i := LowerBound(es, SeekKey(target, s));
    forall j, k | 0 <= j < i <= k < |es| && Seen(es, s, j) ensures es[j].user != es[k].user {
      assert Less(es[j].Key(), SeekKey(target, s)) && !Less(es[k].Key(), SeekKey(target, s));
    }
  }

  lemma SeekLands(es: seq<Entry>, s: Seqno, target: UserKey, i: nat, skip: UserKey, valid: bool, at: nat)
    requires Sorted(es) && i == LowerBound(es, SeekKey(target, s))
    requires if i < |es| then Scan(i, false, skip).Result(es, s, valid, at) else !valid
    ensures LandsAtOrAfter(es, s, target, valid, at)
  {
    forall j | 0 <= j < i && target <= es[j].user ensures !Shown(es, s, j) {
      assert Less(es[j].Key(), SeekKey(target, s));
    }
    if valid {
      assert !Less(es[at].Key(), SeekKey(target, s));
    }
  }

  lemma NextAfterForward(es: seq<Entry>, s: Seqno, at: nat)
    requires Sorted(es) && at < |es|
    ensures Scan(at, true, es[at].user).Start(es, s)
  {
    forall j, k | 0 <= j <= at <= k < |es| ensures es[j].user <= es[at].user <= es[k].user {
      UsersOrdered(es, j, at);
      UsersOrdered(es, at, k);
    }
  }

  lemma NextAfterReverse(es: seq<Entry>, s: Seqno, below: nat, at: nat)
    requires Sorted(es) && below <= at < |es|
    requires below > 0 ==> es[below - 1].user < es[at].user
    requires forall j :: below <= j < at ==> !Seen(es, s, j)
    ensures Scan(below, true, es[at].user).Start(es, s)
  {
    forall j | 0 <= j < below ensures es[j].user < es[at].user {
      UsersOrdered(es, j, below - 1);
    }
    forall k | at <= k < |es| ensures es[at].user <= es[k].user {
      UsersOrdered(es, at, k);
    }
  }

  lemma NextLands(es: seq<Entry>, s: Seqno, from: nat, u: UserKey, before: nat, valid: bool, at: nat)
    requires Sorted(es) && before < |es| && Shown(es, s, before) && u == es[before].user && from <= before
    requires Scan(from, true, u).Result(es, s, valid, at)
    ensures FirstFrom(es, s, before + 1, valid, at)
  {
    if valid && at <= before {
      UsersOrdered(es, at, before);
    }
    forall j | before < j < |es| && Shown(es, s, j) ensures u < es[j].user {
      ShownDistinct(es, s, before, j);
    }
  }

  // ---------------------------------------------------------------------------------------------
  // Scanning backwards
  // ---------------------------------------------------------------------------------------------

  /** The scan down from `to` has come to `b`; only `h`, if `has`, can be a shown entry it has passed. */
  ghost predicate BackInv(es: seq<Entry>, s: Seqno, to: nat, b: nat, has: bool, h: nat) {
    && b <= to <= |es|
    && (has ==> b <= h < to && Seen(es, s, h) && es[h].kind.Value? && forall j :: b <= j < h ==> !Seen(es, s, j))
    && (forall j :: b <= j < to && Shown(es, s, j) ==> has && j == h)
  }

  /** What one turn of the scan does. */
  lemma BackStep(es: seq<Entry>, s: Seqno, to: nat, b: nat, has: bool, h: nat)
    requires Sorted(es) && BackInv(es, s, to, b, has, h) && b > 0
    ensures if !Seen(es, s, b - 1) then BackInv(es, s, to, b - 1, has, h)
            else if has && es[b - 1].user < es[h].user then LastBefore(es, s, to, true, h)
            else BackInv(es, s, to, b - 1, es[b - 1].kind.Value?, b - 1)
  {
    if has {
      UsersOrdered(es, b - 1, h);
      forall j | 0 <= j < b ensures es[j].user <= es[b - 1].user {
        UsersOrdered(es, j, b - 1);
      }
    }
  }

  lemma SameKeyNotShown(es: seq<Entry>, s: Seqno, from: nat, at: nat)
    requires Sorted(es) && from <= at < |es| && Shown(es, s, at)
    requires forall j :: from <= j < at ==> es[at].user <= es[j].user
    ensures NoneShown(es, s, from, at)
  {
    forall j | from <= j < at ensures !Shown(es, s, j) {
      UsersOrdered(es, j, at);
    }
  }

  // ---------------------------------------------------------------------------------------------
  // The iterator over user keys
  // ---------------------------------------------------------------------------------------------

  datatype Direction = Forward | Reverse

  /** Moving forward, the cursor is on the entry shown. Moving backwards, the key and value shown are saved and
      the cursor is before every visible entry of that key. */
  class DbIter {
    const iter: MergingIterator.MergingIter
    const sequence: Seqno
    var direction: Direction
    var valid: bool
    var savedKey: UserKey
    var savedValue: Bytes
    /** The entry shown. */
    ghost var at: nat

    ghost function Entries(): seq<Entry> {
      iter.entries
    }

    /** The entries before the cursor's position and at it. */
    ghost function Below(): nat
      reads this, iter, iter.children
    {
      if iter.On() then iter.pos + 1 else 0
    }

    ghost predicate Valid()
      reads this, iter, iter.children
    {
      && iter.Valid()
      && (valid ==> at < |Entries()| && Shown(Entries(), sequence, at))
      && (valid && direction.Forward? ==> iter.On() && iter.pos == at)
      && (valid && direction.Reverse? ==>
            && savedKey == Entries()[at].user && savedValue == Entries()[at].value
            && Below() <= at && (iter.On() ==> Entries()[iter.pos].user < savedKey)
            && forall j :: Below() <= j < at ==> !Seen(Entries(), sequence, j))
    }

    constructor (iter: MergingIterator.MergingIter, sequence: Seqno)
      requires iter.Valid()
      ensures Valid() && this.iter == iter && this.sequence == sequence && !valid
    {
      this.iter := iter;
      this.sequence := sequence;
      direction, valid := Forward, false;
      savedKey, savedValue, at := 0, "", 0;
    }

    function Key(): (k: UserKey)
      reads this, iter, iter.children
      requires Valid() && valid
      ensures k == Entries()[at].user
    {
      if direction.Forward? then iter.Current().user else savedKey
    }

    function Value(): (v: Bytes)
      reads this, iter, iter.children
      requires Valid() && valid
      ensures v == Entries()[at].value
    {
      if direction.Forward? then iter.Current().value else savedValue
    }

    /** Lands on the first visible key at or after the target. */
    method Seek(target: UserKey)
      requires Valid()
      modifies this, iter, iter.children
      ensures Valid() && LandsAtOrAfter(Entries(), sequence, target, valid, at)
    {
      direction := Forward;
      savedValue := "";
      ghost var i := LowerBound(Entries(), SeekKey(target, sequence));
      SeekIsFresh(Entries(), sequence, target, savedKey);
      iter.Seek(SeekKey(target, sequence));
      if iter.On() {
        FindNextUserEntry(false);
      } else {
        valid := false;
      }
      SeekLands(Entries(), sequence, target, i, savedKey, valid, at);
    }

    method SeekToFirst()
      requires Valid()
      modifies this, iter, iter.children
      ensures Valid() && FirstFrom(Entries(), sequence, 0, valid, at)
    {
      direction := Forward;
      savedValue := "";
      iter.SeekToFirst();
      if iter.On() {
        FindNextUserEntry(false);
      } else {
        valid := false;
      }
    }

    /** The first shown entry from the cursor on, past the saved key if `skip`. */
    method FindNextUserEntry(skip: bool)
      requires iter.Valid() && iter.On() && direction.Forward? && Scan(iter.pos, skip, savedKey).Start(Entries(), sequence)
      modifies this, iter, iter.children
      ensures Valid() && direction.Forward? && Scan(old(iter.pos), skip, old(savedKey)).Result(Entries(), sequence, valid, at)
    {
      ghost var scan, i := Scan(iter.pos, skip, savedKey), iter.pos;
      var skipping, found := skip, false;
      while iter.On()
        invariant iter.Valid() && direction.Forward? && i == Here()
        invariant scan.Inv(Entries(), sequence, i, skipping, savedKey)
        decreases |Entries()| - i
      {
        found, skipping := ShowOrPass(scan, skipping);
        if found {
          return;
        }
        i := i + 1;
      }
      savedKey := 0;
      valid := false;
    }

    /** One turn of the loop: the entry under the cursor is shown, or passed over. */
    method ShowOrPass(ghost scan: Scan, skip: bool) returns (found: bool, skipping: bool)
      requires iter.Valid() && iter.On() && direction.Forward? && scan.Inv(Entries(), sequence, iter.pos, skip, savedKey)
      modifies this, iter, iter.children
      ensures iter.Valid() && direction.Forward?
      ensures found ==> Valid() && scan.Result(Entries(), sequence, valid, at)
      ensures !found ==> Here() == old(iter.pos) + 1 && scan.Inv(Entries(), sequence, Here(), skipping, savedKey)
    {
      scan.Step(Entries(), sequence, iter.pos, skip, savedKey);
      skipping := skip;
      var e := iter.Current();
      if e.seqno <= sequence {
        if e.kind.Deletion? {
          savedKey := e.user;
          skipping := true;
        } else if skipping && e.user <= savedKey {
          // hidden
        } else {
          valid := true;
          at := iter.pos;
          savedKey := 0;
          return true, skipping;
        }
      }
      iter.Next();
      found := false;
    }

    ghost function Here(): nat
      reads this, iter, iter.children
    {
      if iter.On() then iter.pos else |Entries()|
    }

    /** Moves to the next visible key. */
    method Next()
      requires Valid() && valid
      modifies this, iter, iter.children
      ensures Valid() && FirstFrom(Entries(), sequence, old(at) + 1, valid, at)
    {
      if direction.Reverse? {
        direction := Forward;
        NextAfterReverse(Entries(), sequence, Below(), at);
        if !iter.On() {
          iter.SeekToFirst();
        } else {
          iter.Next();
        }
        // the entry shown is behind the cursor, so the cursor has not run off the end
        assert iter.On();
      } else {
        savedKey := iter.Current().user;
        NextAfterForward(Entries(), sequence, at);
      }
      ghost var from, u := iter.pos, savedKey;
      FindNextUserEntry(true);
      NextLands(Entries(), sequence, from, u, old(at), valid, at);
    }

    method SeekToLast()
      requires Valid()
      modifies this, iter, iter.children
      ensures Valid() && LastBefore(Entries(), sequence, |Entries()|, valid, at)
    {
      direction := Reverse;
      savedValue := "";
      iter.SeekToLast();
      FindPrevUserEntry();
    }

    /** Moves to the previous visible key. */
    method Prev()
      requires Valid() && valid
      modifies this, iter, iter.children
      ensures Valid() && LastBefore(Entries(), sequence, old(at), valid, at)
    {
      if direction.Forward? {
        savedKey := iter.Current().user;
        while true
          invariant iter.Valid() && iter.On() && iter.pos <= old(at) && at == old(at) && valid && direction.Forward?
          invariant savedKey == Entries()[at].user
          invariant forall j :: iter.pos <= j <= at ==> savedKey <= Entries()[j].user
          decreases iter.pos
        {
          iter.Prev();
          if !iter.On() {
            SameKeyNotShown(Entries(), sequence, 0, at);
            valid := false;
            savedKey := 0;
            savedValue := "";
            return;
          }
          if iter.Current().user < savedKey {
            break;
          }
        }
        direction := Reverse;
        SameKeyNotShown(Entries(), sequence, iter.pos + 1, at);
      }
      FindPrevUserEntry();
    }

    /** The last shown entry at or before the cursor. */
    method FindPrevUserEntry()
      requires iter.Valid() && direction.Reverse?
      modifies this, iter, iter.children
      ensures Valid() && LastBefore(Entries(), sequence, old(Below()), valid, at)
    {
      ghost var es, to, b := Entries(), Below(), Below();
      ghost var h: nat := 0;
      var kind := Deletion;
      while iter.On()
        invariant iter.Valid() && b == Below() && direction.Reverse?
        invariant BackInv(es, sequence, to, b, kind.Value?, h)
        invariant kind.Value? ==> savedKey == es[h].user && savedValue == es[h].value
        decreases b
      {
        BackStep(es, sequence, to, b, kind.Value?, h);
        var e := iter.Current();
        if e.seqno <= sequence {
          if kind.Value? && e.user < savedKey {
            break;
          }
          kind := e.kind;
          h := iter.pos;
          if kind.Deletion? {
            savedKey := 0;
            savedValue := "";
          } else {
            savedKey := e.user;
            savedValue := e.value;
          }
        }
        iter.Prev();
        b := b - 1;
      }
      if kind.Deletion? {
        valid := false;
        savedKey := 0;
        savedValue := "";
        direction := Forward;
      } else {
        valid := true;
        at := h;
      }
    }
  }

  // ---------------------------------------------------------------------------------------------
  // The list of visible keys
  // ---------------------------------------------------------------------------------------------

  /** `shown` lists the entries shown before `to`, in order. */
  ghost predicate IsListing(es: seq<Entry>, s: Seqno, to: nat, shown: seq<nat>)
    requires to <= |es|
  {
    && (forall c :: 0 <= c < |shown| ==> shown[c] < to && Shown(es, s, shown[c]))
    && (forall i :: 0 <= i < to && Shown(es, s, i) ==> i in shown)
    && (forall c, d :: 0 <= c < d < |shown| ==> shown[c] < shown[d])
  }

  ghost function Listing(es: seq<Entry>, s: Seqno, n: nat): (shown: seq<nat>)
    requires n <= |es|
    ensures IsListing(es, s, n, shown)
    decreases n
  {
    if n == 0 then [] else Listing(es, s, n - 1) + if Shown(es, s, n - 1) then [n - 1] else []
  }

  lemma Increasing(shown: seq<nat>, c: nat, d: nat)
    requires c < |shown| && d < |shown| && forall i, j :: 0 <= i < j < |shown| ==> shown[i] < shown[j]
    ensures c <= d <==> shown[c] <= shown[d]
  {
  }

  /** Next moves from one key of the list to the next, whatever was called before. */
  lemma NextInListing(es: seq<Entry>, s: Seqno, shown: seq<nat>, c: nat, valid: bool, at: nat)
    requires IsListing(es, s, |es|, shown) && c < |shown| && FirstFrom(es, s, shown[c] + 1, valid, at)
    ensures valid <==> c + 1 < |shown|
    ensures valid ==> at == shown[c + 1]
  {
    assert c + 1 < |shown| ==> shown[c] < shown[c + 1];
    if valid {
      var d :| 0 <= d < |shown| && shown[d] == at;
      Increasing(shown, d, c);
    }
  }

  lemma PrevInListing(es: seq<Entry>, s: Seqno, shown: seq<nat>, c: nat, valid: bool, at: nat)
    requires IsListing(es, s, |es|, shown) && c < |shown| && LastBefore(es, s, shown[c], valid, at)
    ensures valid <==> c > 0
    ensures valid ==> at == shown[c - 1]
  {
    assert c > 0 ==> shown[c - 1] < shown[c];
    if valid {
      var d :| 0 <= d < |shown| && shown[d] == at;
      Increasing(shown, c, d);
    }
  }

  /** SeekToFirst and SeekToLast land on the ends of the list. */
  lemma FirstInListing(es: seq<Entry>, s: Seqno, shown: seq<nat>, valid: bool, at: nat)
    requires IsListing(es, s, |es|, shown) && FirstFrom(es, s, 0, valid, at)
    ensures valid <==> shown != []
    ensures valid ==> at == shown[0]
  {
    if valid {
      var d :| 0 <= d < |shown| && shown[d] == at;
      Increasing(shown, 0, d);
    }
  }

  lemma LastInListing(es: seq<Entry>, s: Seqno, shown: seq<nat>, valid: bool, at: nat)
    requires IsListing(es, s, |es|, shown) && LastBefore(es, s, |es|, valid, at)
    ensures valid <==> shown != []
    ensures valid ==> at == shown[|shown| - 1]
  {
    if valid {
      var d :| 0 <= d < |shown| && shown[d] == at;
      Increasing(shown, d, |shown| - 1);
    }
  }

  /** A key is listed exactly if a point lookup finds it, with the same value. */
  lemma ListedIffFound(es: seq<Entry>, s: Seqno, u: UserKey, v: Bytes)
    requires Sorted(es)
    ensures AnswerOf(Lookup(es, u, s)) == Found(v) <==>
            exists i :: 0 <= i < |es| && Shown(es, s, i) && es[i].user == u && es[i].value == v
  {
    var k := LowerBound(es, SeekKey(u, s));
    assert forall j :: 0 <= j < k ==> Less(es[j].Key(), SeekKey(u, s));
    if k < |es| && es[k].user == u && es[k].kind.Value? {
      assert Shown(es, s, k);
    }
    assert forall j :: k <= j < |es| ==> !Less(es[j].Key(), SeekKey(u, s));
    forall i | 0 <= i < |es| && Shown(es, s, i) && es[i].user == u ensures i == k {
      assert !Less(es[i].Key(), SeekKey(u, s));
      UsersOrdered(es, if k < i then k else i, i);
    }
  }
}
