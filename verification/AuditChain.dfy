/** The audit log: a hash chain written by concurrent transactions under a unique
    index, and the check that walks it. The keyed hash is a parameter `h`. */
module AuditChain {

  /** The six hashed columns. */
  datatype Fields = Fields(actor: string, actorDetail: string, action: string, targetType: string, targetId: string,
                           detail: string)

  datatype Row = Row(id: nat, fields: Fields, prevHash: string, entryHash: string)

  const NUL: char := '\0'

  /** What is hashed: the previous hash, then each field after a NUL. */
  function Message(prev: string, f: Fields): string {
    prev + [NUL] + f.actor + [NUL] + f.actorDetail + [NUL] + f.action
    + [NUL] + f.targetType + [NUL] + f.targetId + [NUL] + f.detail
  }

  function AuditHash(h: string -> string, prev: string, f: Fields): string {
    h(Message(prev, f))
  }

  // ---- The chain and its check ----

  /** The hash the next entry must carry. */
  function Tail(rows: seq<Row>): string {
    if rows == [] then "" else rows[|rows| - 1].entryHash
  }

  predicate Fitting(h: string -> string, prev: string, r: Row) {
    r.prevHash == prev && r.entryHash == AuditHash(h, prev, r.fields)
  }

  predicate FitsAt(h: string -> string, rows: seq<Row>, i: nat)
    requires i < |rows|
  {
    Fitting(h, Tail(rows[..i]), rows[i])
  }

  ghost predicate Chained(h: string -> string, rows: seq<Row>) {
    forall i :: 0 <= i < |rows| ==> FitsAt(h, rows, i)
  }

  /** Row k is the first that does not fit. */
  ghost predicate BreaksAt(h: string -> string, rows: seq<Row>, k: nat) {
    k < |rows| && Chained(h, rows[..k]) && !FitsAt(h, rows, k)
  }

  /** Walks the rows in id order; on a break, reports the row's id. */
  method VerifyAuditChain(h: string -> string, rows: seq<Row>) returns (ok: bool, brokenAt: nat)
    ensures ok <==> Chained(h, rows)
    ensures !ok ==> exists k: nat :: BreaksAt(h, rows, k) && brokenAt == rows[k].id
  {
    var prev := "";
    for i := 0 to |rows|
      invariant prev == Tail(rows[..i])
      invariant Chained(h, rows[..i])
    {
      var r := rows[i];
      var want := AuditHash(h, prev, r.fields);
      if r.prevHash != prev || r.entryHash != want {
        assert BreaksAt(h, rows, i);
        return false, r.id;
      }
      ChainedSnoc(h, rows[..i], r);
      assert rows[..i + 1] == rows[..i] + [r];
      prev := r.entryHash;
    }
    assert rows[..|rows|] == rows;
    return true, 0;
  }

  lemma {:induction false} ChainedPrefix(h: string -> string, rows: seq<Row>, k: nat)
    requires Chained(h, rows) && k <= |rows|
    ensures Chained(h, rows[..k])
  {
    forall i | 0 <= i < k ensures FitsAt(h, rows[..k], i) {
      assert FitsAt(h, rows, i);
      assert rows[..k][..i] == rows[..i];
    }
  }

  lemma {:induction false} ChainedSnoc(h: string -> string, rows: seq<Row>, r: Row)
    requires Chained(h, rows) && Fitting(h, Tail(rows), r)
    ensures Chained(h, rows + [r])
  {
    forall i | 0 <= i <= |rows| ensures FitsAt(h, rows + [r], i) {
      assert i < |rows| ==> FitsAt(h, rows, i);
      assert (rows + [r])[..i] == rows[..i];
      assert rows[..|rows|] == rows;
    }
  }

  // ---- Concurrent writers ----

  /** Where a writer is in appending an entry: it has read the last hash when it
      could see `seen` rows, and later drawn an id from the sequence. */
  datatype Progress = Idle | HasRead(prev: string, seen: nat) | HasId(prev: string, seen: nat, id: nat)

  /** A transaction in flight: its uncommitted rows, visible only to itself. */
  datatype Writer = Writer(pending: seq<Row>, progress: Progress)

  datatype Log = Log(committed: seq<Row>, nextId: nat, writers: seq<Writer>)

  datatype Event =
    | ReadLast(w: nat)
    | DrawId(w: nat)
    | Insert(w: nat, fields: Fields)
    | Commit(w: nat)
    | Abort(w: nat)

  function Visible(s: Log, w: nat): seq<Row>
    requires w < |s.writers|
  {
    s.committed + s.writers[w].pending
  }

  /** The entry hash of the row with the highest id, or "". */
  function LastHash(rows: seq<Row>): string {
    if rows == [] then "" else rows[HighestId(rows)].entryHash
  }

  function HighestId(rows: seq<Row>): (k: nat)
    requires rows != []
    ensures k < |rows| && forall i :: 0 <= i < |rows| ==> rows[i].id <= rows[k].id
  {
    if |rows| == 1 then 0
    else
      var n := |rows| - 1;
      var k := HighestId(rows[..n]);
      assert forall i :: 0 <= i < n ==> rows[..n][i] == rows[i];
      if rows[n].id > rows[k].id then n else k
  }

  predicate Uses(rows: seq<Row>, prev: string) {
    exists i :: 0 <= i < |rows| && rows[i].prevHash == prev
  }

  predicate OtherHolds(s: Log, w: nat, prev: string) {
    exists v :: 0 <= v < |s.writers| && v != w && Uses(s.writers[v].pending, prev)
  }

  function Set(s: Log, w: nat, writer: Writer): Log
    requires w < |s.writers|
  {
    s.(writers := s.writers[w := writer])
  }

  /** One statement of one transaction; a statement that is not enabled changes
      nothing. An insert whose previous hash is taken by a committed or own row
      fails and aborts the transaction; one taken by another transaction's
      uncommitted row waits. */
  function Next(h: string -> string, s: Log, e: Event): Log {
    if e.w >= |s.writers| then s
    else
      var t := s.writers[e.w];
      match e
      case ReadLast(w) =>
        if t.progress.Idle? then Set(s, w, t.(progress := HasRead(LastHash(Visible(s, w)), |Visible(s, w)|))) else s
      case DrawId(w) =>
        if t.progress.HasRead? then
          Set(s, w, t.(progress := HasId(t.progress.prev, t.progress.seen, s.nextId))).(nextId := s.nextId + 1)
        else s
      case Insert(w, fields) =>
        if !t.progress.HasId? then s
        else if Uses(Visible(s, w), t.progress.prev) then Set(s, w, Writer([], Idle))
        else if OtherHolds(s, w, t.progress.prev) then s
        else
          var row := Row(t.progress.id, fields, t.progress.prev, AuditHash(h, t.progress.prev, fields));
          Set(s, w, Writer(t.pending + [row], Idle))
      case Commit(w) =>
        if t.progress.Idle? then Set(s, w, Writer([], Idle)).(committed := s.committed + t.pending) else s
      case Abort(w) => Set(s, w, Writer([], Idle))
  }

  function Run(h: string -> string, s: Log, events: seq<Event>): Log
    decreases |events|
  {
    if events == [] then s else Run(h, Next(h, s, events[0]), events[1..])
  }

  // ---- What every interleaving keeps ----

  ghost predicate Ascending(rows: seq<Row>, bound: nat) {
    && (forall i, j :: 0 <= i < j < |rows| ==> rows[i].id < rows[j].id)
    && (forall i :: 0 <= i < |rows| ==> rows[i].id < bound)
  }

  ghost predicate Unforked(rows: seq<Row>) {
    forall i, j :: 0 <= i < j < |rows| ==> rows[i].prevHash != rows[j].prevHash
  }

  /** One chain, in id order, with no two rows on the same predecessor. */
  ghost predicate OneChain(h: string -> string, rows: seq<Row>, bound: nat) {
    Chained(h, rows) && Ascending(rows, bound) && Unforked(rows)
  }

  /** What a writer has read was the tail of the rows it then saw, and an id it has
      drawn is above all of theirs. */
  ghost predicate ProgressSound(p: Progress, rows: seq<Row>, bound: nat) {
    match p
    case Idle => true
    case HasRead(prev, seen) => seen <= |rows| && prev == Tail(rows[..seen])
    case HasId(prev, seen, id) =>
      seen <= |rows| && prev == Tail(rows[..seen]) && id < bound && forall i :: 0 <= i < seen ==> rows[i].id < id
  }

  ghost predicate WriterSound(h: string -> string, s: Log, w: nat)
    requires w < |s.writers|
  {
    OneChain(h, Visible(s, w), s.nextId) && ProgressSound(s.writers[w].progress, Visible(s, w), s.nextId)
  }

  /** Every writer's view is one chain, and only one can have uncommitted rows. */
  ghost predicate Sound(h: string -> string, s: Log) {
    && OneChain(h, s.committed, s.nextId)
    && (forall w :: 0 <= w < |s.writers| ==> WriterSound(h, s, w))
    && (forall v, w :: 0 <= v < |s.writers| && 0 <= w < |s.writers| && v != w ==>
          s.writers[v].pending == [] || s.writers[w].pending == [])
  }

  lemma {:induction false} LastIsTail(rows: seq<Row>, bound: nat)
    requires Ascending(rows, bound)
    ensures LastHash(rows) == Tail(rows)
  {
    if rows != [] {
      var k := HighestId(rows);
      assert rows[|rows| - 1].id <= rows[k].id;
    }
  }

  /** A view in which the read hash is unused has not grown since it was read. */
  lemma {:induction false} UnusedIsTail(h: string -> string, rows: seq<Row>, p: Progress, bound: nat)
    requires Chained(h, rows) && p.HasId? && ProgressSound(p, rows, bound) && !Uses(rows, p.prev)
    ensures p.seen == |rows| && p.prev == Tail(rows)
  {
    assert p.seen < |rows| ==> FitsAt(h, rows, p.seen);
    assert rows[..|rows|] == rows;
  }

  lemma {:induction false} ExtendChain(h: string -> string, rows: seq<Row>, p: Progress, fields: Fields, bound: nat)
    requires OneChain(h, rows, bound) && p.HasId? && ProgressSound(p, rows, bound) && !Uses(rows, p.prev)
    ensures OneChain(h, rows + [Row(p.id, fields, p.prev, AuditHash(h, p.prev, fields))], bound)
  {
    UnusedIsTail(h, rows, p, bound);
    ChainedSnoc(h, rows, Row(p.id, fields, p.prev, AuditHash(h, p.prev, fields)));
  }

  /** Uncommitted rows start at the committed tail. */
  lemma {:induction false} PendingStartsAtTail(h: string -> string, s: Log, v: nat)
    requires Sound(h, s) && v < |s.writers| && s.writers[v].pending != []
    ensures Uses(s.writers[v].pending, Tail(s.committed))
  {
    var n, rows := |s.committed|, Visible(s, v);
    assert WriterSound(h, s, v);
    assert FitsAt(h, rows, n);
    assert rows[..n] == s.committed && rows[n] == s.writers[v].pending[0];
  }

  lemma {:induction false} InsertAlone(h: string -> string, s: Log, w: nat, v: nat)
    requires Sound(h, s) && w < |s.writers| && v < |s.writers| && v != w && s.writers[w].progress.HasId?
    requires !Uses(Visible(s, w), s.writers[w].progress.prev) && !OtherHolds(s, w, s.writers[w].progress.prev)
    ensures s.writers[v].pending == []
  {
    assert WriterSound(h, s, w);
    if s.writers[v].pending != [] {
      assert s.writers[w].pending == [];
      assert Visible(s, w) == s.committed;
      UnusedIsTail(h, Visible(s, w), s.writers[w].progress, s.nextId);
      PendingStartsAtTail(h, s, v);
    }
  }

  lemma {:induction false} WidenBound(h: string -> string, s: Log, s': Log, w: nat)
    requires w < |s.writers| == |s'.writers| && WriterSound(h, s, w) && s'.writers[w] == s.writers[w]
    requires s'.committed == s.committed && s'.nextId >= s.nextId
    ensures WriterSound(h, s', w)
  {
    assert Visible(s', w) == Visible(s, w);
  }

  lemma {:induction false} ReadKeeps(h: string -> string, s: Log, w: nat)
    requires Sound(h, s)
    ensures Sound(h, Next(h, s, ReadLast(w)))
  {
    var s' := Next(h, s, ReadLast(w));
    forall v | 0 <= v < |s'.writers| ensures WriterSound(h, s', v) {
      assert WriterSound(h, s, v);
      if v != w || s' == s {
        WidenBound(h, s, s', v);
      } else {
        LastIsTail(Visible(s, w), s.nextId);
        assert Visible(s, w)[..|Visible(s, w)|] == Visible(s, w);
      }
    }
  }

  lemma {:induction false} DrawKeeps(h: string -> string, s: Log, w: nat)
    requires Sound(h, s)
    ensures Sound(h, Next(h, s, DrawId(w)))
  {
    var s' := Next(h, s, DrawId(w));
    forall v | 0 <= v < |s'.writers| ensures WriterSound(h, s', v) {
      assert WriterSound(h, s, v);
      if v != w {
        WidenBound(h, s, s', v);
      }
    }
  }

  lemma {:induction false} EndKeeps(h: string -> string, s: Log, w: nat)
    requires Sound(h, s) && w < |s.writers|
    ensures Sound(h, Set(s, w, Writer([], Idle)))
  {
    var s' := Set(s, w, Writer([], Idle));
    forall v | 0 <= v < |s'.writers| ensures WriterSound(h, s', v) {
      assert WriterSound(h, s, v);
      if v != w {
        WidenBound(h, s, s', v);
      } else {
        assert Visible(s', w) == s.committed;
      }
    }
  }

  lemma {:induction false} InsertKeeps(h: string -> string, s: Log, w: nat, fields: Fields)
    requires Sound(h, s)
    ensures Sound(h, Next(h, s, Insert(w, fields)))
  {
    var s' := Next(h, s, Insert(w, fields));
    if w < |s.writers| && s' != s {
      var p := s.writers[w].progress;
      if Uses(Visible(s, w), p.prev) {
        EndKeeps(h, s, w);
      } else {
        assert WriterSound(h, s, w);
        ExtendChain(h, Visible(s, w), p, fields, s.nextId);
        forall v | 0 <= v < |s'.writers| ensures WriterSound(h, s', v) && (v != w ==> s'.writers[v].pending == []) {
          if v == w {
            assert Visible(s', w) == Visible(s, w) + [Row(p.id, fields, p.prev, AuditHash(h, p.prev, fields))];
          } else {
            assert WriterSound(h, s, v);
            WidenBound(h, s, s', v);
            InsertAlone(h, s, w, v);
          }
        }
      }
    }
  }

  /** Another writer's view after a commit: nothing it had read is lost. */
  lemma {:induction false} CommitOther(h: string -> string, s: Log, w: nat, v: nat)
    requires Sound(h, s) && w < |s.writers| && v < |s.writers| && v != w && s.writers[w].pending != []
    ensures s.writers[v].pending == []
    ensures ProgressSound(s.writers[v].progress, Visible(s, w), s.nextId)
  {
    assert WriterSound(h, s, v);
    assert s.writers[v].pending == [];
    assert Visible(s, v) == s.committed;
    assert forall k :: 0 <= k <= |s.committed| ==> Visible(s, w)[..k] == s.committed[..k];
  }

  lemma {:induction false} CommitKeeps(h: string -> string, s: Log, w: nat)
    requires Sound(h, s)
    ensures Sound(h, Next(h, s, Commit(w)))
  {
    var s' := Next(h, s, Commit(w));
    if w < |s.writers| && s.writers[w].progress.Idle? {
      assert WriterSound(h, s, w);
      if s.writers[w].pending == [] {
        assert s' == Set(s, w, Writer([], Idle));
        EndKeeps(h, s, w);
      } else {
        forall v | 0 <= v < |s'.writers| ensures WriterSound(h, s', v) && s'.writers[v].pending == [] {
          if v != w {
            CommitOther(h, s, w, v);
          }
          assert Visible(s', v) == Visible(s, w);
        }
      }
    }
  }

  lemma {:induction false} StepKeeps(h: string -> string, s: Log, e: Event)
    requires Sound(h, s)
    ensures Sound(h, Next(h, s, e)) && s.committed <= Next(h, s, e).committed
  {
    match e {
      case ReadLast(w) => ReadKeeps(h, s, w);
      case DrawId(w) => DrawKeeps(h, s, w);
      case Insert(w, fields) => InsertKeeps(h, s, w, fields);
      case Commit(w) => CommitKeeps(h, s, w);
      case Abort(w) =>
        if w < |s.writers| {
          EndKeeps(h, s, w);
        }
    }
  }

  /** Over every interleaving of any number of writers, whatever the hash: the
      committed rows are never changed, and in id order they are one unforked chain
      that the check accepts. */
  lemma {:induction false} InterleavingsKeepChain(h: string -> string, s: Log, events: seq<Event>)
    requires Sound(h, s)
    ensures Sound(h, Run(h, s, events)) && s.committed <= Run(h, s, events).committed
    decreases |events|
  {
    if events != [] {
      StepKeeps(h, s, events[0]);
      InterleavingsKeepChain(h, Next(h, s, events[0]), events[1..]);
    }
  }

  function NewLog(writers: nat): Log {
    Log([], 0, seq(writers, _ => Writer([], Idle)))
  }

  /** The same from the start of a log: the rows listed in id order pass the check. */
  lemma {:induction false} LogVerifies(h: string -> string, writers: nat, events: seq<Event>)
    ensures var rows := Run(h, NewLog(writers), events).committed;
            && Chained(h, rows) && Unforked(rows)
            && forall i, j :: 0 <= i < j < |rows| ==> rows[i].id < rows[j].id
  {
    forall w | 0 <= w < writers ensures WriterSound(h, NewLog(writers), w) {
      assert Visible(NewLog(writers), w) == [];
    }
    InterleavingsKeepChain(h, NewLog(writers), events);
  }

  // ---- Tampering ----

  predicate NulFree(s: string) {
    NUL !in s
  }

  predicate Plain(f: Fields) {
    NulFree(f.actor) && NulFree(f.actorDetail) && NulFree(f.action) && NulFree(f.targetType) && NulFree(f.targetId)
      && NulFree(f.detail)
  }

  /** No two messages share a hash; hashes are hexadecimal, so not empty, no NUL. */
  ghost predicate GoodHash(h: string -> string) {
    && (forall m, m' :: h(m) == h(m') ==> m == m')
    && (forall m :: h(m) != "" && NulFree(h(m)))
  }

  // A good hash exists: escape every NUL, and put a letter in front.

  function Escaped(m: string): string {
    if m == "" then ""
    else (if m[0] == NUL then "n0" else if m[0] == 'n' then "nn" else [m[0]]) + Escaped(m[1..])
  }

  function EscapeHash(m: string): string {
    "h" + Escaped(m)
  }

  lemma {:induction false} EscapedIs(m: string)
    ensures NulFree(Escaped(m)) && (Escaped(m) == "" <==> m == "")
  {
    if m != "" {
      EscapedIs(m[1..]);
    }
  }

  /** The first character and the rest can be told from the escaped text. */
  lemma {:induction false} EscapedInjective(m: string, m': string)
    requires Escaped(m) == Escaped(m')
    ensures m == m'
    decreases |m|
  {
    EscapedIs(m);
    EscapedIs(m');
    if m != "" {
      var e, f := Escaped(m[1..]), Escaped(m'[1..]);
      var long, long' := m[0] == NUL || m[0] == 'n', m'[0] == NUL || m'[0] == 'n';
      assert Escaped(m)[0] == (if long then 'n' else m[0]) && Escaped(m')[0] == (if long' then 'n' else m'[0]);
      assert long == long';
      assert Escaped(m)[if long then 2 else 1..] == e && Escaped(m')[if long' then 2 else 1..] == f;
      if long {
        assert Escaped(m)[1] == (if m[0] == NUL then '0' else 'n');
        assert Escaped(m')[1] == (if m'[0] == NUL then '0' else 'n');
      }
      EscapedInjective(m[1..], m'[1..]);
      assert m == [m[0]] + m[1..] && m' == [m'[0]] + m'[1..];
    }
  }

  /** So the assumptions on the hash can be met. */
  lemma {:induction false} GoodHashExists()
    ensures GoodHash(EscapeHash)
  {
    forall m, m' | EscapeHash(m) == EscapeHash(m') ensures m == m' {
      assert EscapeHash(m)[1..] == Escaped(m) && EscapeHash(m')[1..] == Escaped(m');
      EscapedInjective(m, m');
    }
    forall m ensures EscapeHash(m) != "" && NulFree(EscapeHash(m)) {
      EscapedIs(m);
    }
  }

  lemma {:induction false} CutAtNul(a: string, x: string, b: string, y: string)
    requires NulFree(a) && NulFree(b) && a + [NUL] + x == b + [NUL] + y
    ensures a == b && x == y
  {
    var s := a + [NUL] + x;
    assert s[|a|] == NUL && s[|b|] == NUL;
    assert forall i :: 0 <= i < |a| ==> s[i] == a[i] && a[i] in a;
    assert forall i :: 0 <= i < |b| ==> s[i] == b[i] && b[i] in b;
    assert |a| == |b|;
    assert a == s[..|a|] == b;
    assert x == s[|a| + 1..] == y;
  }

  function Rest(f: Fields): string {
    f.actor + [NUL] + (f.actorDetail + [NUL]
                       + (f.action + [NUL] + (f.targetType + [NUL] + (f.targetId + [NUL] + f.detail))))
  }

  lemma {:induction false} MessageNested(prev: string, f: Fields)
    ensures Message(prev, f) == prev + [NUL] + Rest(f)
  {
    assert f.targetId + [NUL] + f.detail == f.targetId + ([NUL] + f.detail);
  }

  /** Each text after the first behind a zero character. */
  function Separated(texts: seq<string>): string {
    if texts == [] then "" else if |texts| == 1 then texts[0] else texts[0] + "\0" + Separated(texts[1..])
  }

  /** What is hashed, in the order of the columns. */
  lemma {:induction false} MessageIs(prev: string, f: Fields)
    ensures Message(prev, f)
         == Separated([prev, f.actor, f.actorDetail, f.action, f.targetType, f.targetId, f.detail])
  {
    MessageNested(prev, f);
    Prepended(f.targetId, [f.detail]);
    Prepended(f.targetType, [f.targetId, f.detail]);
    Prepended(f.action, [f.targetType, f.targetId, f.detail]);
    Prepended(f.actorDetail, [f.action, f.targetType, f.targetId, f.detail]);
    Prepended(f.actor, [f.actorDetail, f.action, f.targetType, f.targetId, f.detail]);
    Prepended(prev, [f.actor, f.actorDetail, f.action, f.targetType, f.targetId, f.detail]);
  }

  lemma {:induction false} Prepended(text: string, texts: seq<string>)
    requires texts != []
    ensures Separated([text] + texts) == text + ("\0" + Separated(texts))
  {
    assert ([text] + texts)[1..] == texts;
    assert text + "\0" + Separated(texts) == text + ("\0" + Separated(texts));
  }

  /** Fields without NUL cannot be confused with one another. */
  lemma {:induction false} MessageInjective(prev: string, f: Fields, prev': string, f': Fields)
    requires Plain(f) && Plain(f') && NulFree(prev) && NulFree(prev') && Message(prev, f) == Message(prev', f')
    ensures prev == prev' && f == f'
  {
    MessageNested(prev, f);
    MessageNested(prev', f');
    CutAtNul(prev, Rest(f), prev', Rest(f'));
    RestInjective(f, f');
  }

  lemma {:induction false} RestInjective(f: Fields, f': Fields)
    requires Plain(f) && Plain(f') && Rest(f) == Rest(f')
    ensures f == f'
  {
    var r5, r5' := f.targetId + [NUL] + f.detail, f'.targetId + [NUL] + f'.detail;
    var r4, r4' := f.targetType + [NUL] + r5, f'.targetType + [NUL] + r5';
    var r3, r3' := f.action + [NUL] + r4, f'.action + [NUL] + r4';
    var r2, r2' := f.actorDetail + [NUL] + r3, f'.actorDetail + [NUL] + r3';
    CutAtNul(f.actor, r2, f'.actor, r2');
    CutAtNul(f.actorDetail, r3, f'.actorDetail, r3');
    CutAtNul(f.action, r4, f'.action, r4');
    CutAtNul(f.targetType, r5, f'.targetType, r5');
    CutAtNul(f.targetId, f.detail, f'.targetId, f'.detail);
  }

  ghost predicate AllPlain(rows: seq<Row>) {
    forall i :: 0 <= i < |rows| ==> Plain(rows[i].fields)
  }

  lemma {:induction false} TailNulFree(h: string -> string, rows: seq<Row>, k: nat)
    requires GoodHash(h) && Chained(h, rows) && k <= |rows|
    ensures NulFree(Tail(rows[..k]))
  {
    if k > 0 {
      assert FitsAt(h, rows, k - 1);
    }
  }

  /** Equal hashes have equal predecessors and equal contents. */
  lemma {:induction false} SameHash(h: string -> string, prev: string, r: Row, prev': string, r': Row)
    requires GoodHash(h) && Fitting(h, prev, r) && Fitting(h, prev', r') && r.entryHash == r'.entryHash
    requires Plain(r.fields) && Plain(r'.fields) && NulFree(prev) && NulFree(prev')
    ensures prev == prev' && r.fields == r'.fields
  {
    MessageInjective(prev, r.fields, prev', r'.fields);
  }

  /** A stored row altered in any hashed or hash column is reported at that very row,
      unless the new row is again a correct entry after its predecessor, which takes
      the key to compute; then the next row is reported, and the chain passes only
      if there is no next row. */
  lemma {:induction false} AlterationReported(h: string -> string, rows: seq<Row>, k: nat, r: Row)
    requires GoodHash(h) && Chained(h, rows) && AllPlain(rows) && k < |rows| && Plain(r.fields)
    requires r.fields != rows[k].fields || r.prevHash != rows[k].prevHash || r.entryHash != rows[k].entryHash
    ensures BreaksAt(h, rows[k := r], k) <==> !Fitting(h, Tail(rows[..k]), r)
    ensures Fitting(h, Tail(rows[..k]), r) && k + 1 < |rows| ==> BreaksAt(h, rows[k := r], k + 1)
    ensures Fitting(h, Tail(rows[..k]), r) && k + 1 == |rows| ==> Chained(h, rows[k := r])
    ensures r.entryHash == rows[k].entryHash ==> BreaksAt(h, rows[k := r], k)
  {
    var prev, out := Tail(rows[..k]), rows[k := r];
    ChainedPrefix(h, rows, k);
    assert out[..k] == rows[..k];
    assert FitsAt(h, rows, k);
    TailNulFree(h, rows, k);
    if Fitting(h, prev, r) {
      if r.entryHash == rows[k].entryHash {
        SameHash(h, prev, r, prev, rows[k]);
      }
      ChainedSnoc(h, rows[..k], r);
      assert out[..k + 1] == rows[..k] + [r];
      if k + 1 < |rows| {
        assert FitsAt(h, rows, k + 1);
      } else {
        assert out[..k + 1] == out;
      }
    }
  }

  /** Two accepted logs that agree on one hash agree on everything before it. */
  lemma {:induction false} AcceptedLogsAgree(h: string -> string, xs: seq<Row>, ys: seq<Row>, i: nat, j: nat)
    requires GoodHash(h) && Chained(h, xs) && Chained(h, ys) && AllPlain(xs) && AllPlain(ys)
    requires i < |xs| && j < |ys| && xs[i].entryHash == ys[j].entryHash
    ensures i == j
    ensures forall k :: 0 <= k <= i ==>
              xs[k].fields == ys[k].fields && xs[k].prevHash == ys[k].prevHash && xs[k].entryHash == ys[k].entryHash
    decreases i
  {
    Predecessors(h, xs, ys, i, j);
    if i > 0 {
      AcceptedLogsAgree(h, xs, ys, i - 1, j - 1);
    }
  }

  /** Equal hashes stand on the same predecessor, or both open their log. */
  lemma {:induction false} Predecessors(h: string -> string, xs: seq<Row>, ys: seq<Row>, i: nat, j: nat)
    requires GoodHash(h) && Chained(h, xs) && Chained(h, ys) && AllPlain(xs) && AllPlain(ys)
    requires i < |xs| && j < |ys| && xs[i].entryHash == ys[j].entryHash
    ensures xs[i].fields == ys[j].fields && xs[i].prevHash == ys[j].prevHash
    ensures i == 0 <==> j == 0
    ensures i > 0 && j > 0 ==> xs[i - 1].entryHash == ys[j - 1].entryHash
  {
    var p, q := Tail(xs[..i]), Tail(ys[..j]);
    TailNulFree(h, xs, i);
    TailNulFree(h, ys, j);
    assert FitsAt(h, xs, i) && FitsAt(h, ys, j);
    SameHash(h, p, xs[i], q, ys[j]);
    TailEmptyIff(h, xs, i);
    TailEmptyIff(h, ys, j);
  }

  lemma {:induction false} TailEmptyIff(h: string -> string, rows: seq<Row>, k: nat)
    requires GoodHash(h) && Chained(h, rows) && k <= |rows|
    ensures Tail(rows[..k]) == "" <==> k == 0
  {
    if k > 0 {
      assert FitsAt(h, rows, k - 1);
    }
  }

  /** Removing any row but the last is reported at the row that followed it; removing
      rows from the end is not noticed. */
  lemma {:induction false} RemovalReported(h: string -> string, rows: seq<Row>, k: nat)
    requires GoodHash(h) && Chained(h, rows) && AllPlain(rows) && k < |rows|
    ensures k + 1 < |rows| ==> BreaksAt(h, rows[..k] + rows[k + 1..], k)
    ensures Chained(h, rows[..k])
  {
    ChainedPrefix(h, rows, k);
    if k + 1 < |rows| {
      var out := rows[..k] + rows[k + 1..];
      assert out[..k] == rows[..k] && out[k] == rows[k + 1];
      assert FitsAt(h, rows, k + 1);
      assert FitsAt(h, rows, k);
      if k > 0 && rows[k - 1].entryHash == rows[k].entryHash {
        AcceptedLogsAgree(h, rows, rows, k - 1, k);
      }
    }
  }

  // ---- A writer by itself ----

  /** With a good hash nothing in a chain already stands on its tail. */
  lemma {:induction false} TailUnused(h: string -> string, rows: seq<Row>)
    requires GoodHash(h) && Chained(h, rows) && AllPlain(rows)
    ensures !Uses(rows, Tail(rows))
  {
    forall i | 0 <= i < |rows| ensures rows[i].prevHash != Tail(rows) {
      assert FitsAt(h, rows, i);
      assert rows[..|rows|] == rows;
      TailEmptyIff(h, rows, |rows|);
      if i > 0 && rows[i - 1].entryHash == rows[|rows| - 1].entryHash {
        AcceptedLogsAgree(h, rows, rows, i - 1, |rows| - 1);
      }
    }
  }

  /** The log as one connection sees it when no other transaction is open. */
  class AuditLog {
    var rows: seq<Row>
    var nextId: nat

    ghost predicate Valid(h: string -> string)
      reads this
    {
      OneChain(h, rows, nextId) && AllPlain(rows)
    }

    constructor ()
      ensures forall h :: Valid(h)
      ensures rows == []
    {
      rows, nextId := [], 0;
    }

    /** Read the last hash, hash the entry onto it, insert. Alone, a writer is never
        refused, and the log stays one chain. */
    method LogAudit(h: string -> string, fields: Fields) returns (ok: bool)
      requires Valid(h) && GoodHash(h) && Plain(fields)
      modifies this
      ensures ok && Valid(h)
      ensures rows == old(rows) + [Row(old(nextId), fields, Tail(old(rows)), AuditHash(h, Tail(old(rows)), fields))]
    {
      var prev := LastHash(rows);
      LastIsTail(rows, nextId);
      var id := nextId;
      nextId := nextId + 1;
      TailUnused(h, rows);
      if Uses(rows, prev) {
        return false;
      }
      ghost var p := HasId(prev, |rows|, id);
      assert rows[..|rows|] == rows;
      ExtendChain(h, rows, p, fields, nextId);
      rows := rows + [Row(id, fields, prev, AuditHash(h, prev, fields))];
      return true;
    }
  }
}
