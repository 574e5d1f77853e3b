/** Encrypting old documents in place: a loop with a key cache per company, against
    the plain rule that looks every row's key up. Ciphers and keys are parameters. */
module Backfill {
  import opened Prelude

  type Company = string
  type Key = string

  datatype Lookup = Usable(key: Key) | Unusable | Unavailable

  datatype Document = Document(id: nat, company: Company, filename: string, note: string)

  datatype Write = Write(id: nat, filenameEnc: string, noteEnc: string)

  datatype Fatal = NoKey | FilenameFailed | NoteFailed | WriteFailed

  /** What the world answers: a company's key, a field's ciphertext if encryption
      works, and whether an update goes through. */
  datatype World = World(keyOf: Company -> Lookup, encrypt: (Key, string) -> Option<string>, accepts: Write -> bool)

  /** Empty fields stay empty. */
  function EncField(w: World, key: Key, v: string): Option<string> {
    if v == "" then Some("") else w.encrypt(key, v)
  }

  // ---- One row by itself ----

  datatype Outcome = Migrated(write: Write) | Skipped | Stops(fatal: Fatal)

  function OutcomeOf(w: World, d: Document): Outcome {
    match w.keyOf(d.company)
    case Unavailable => Stops(NoKey)
    case Unusable => Skipped
    case Usable(key) => Encrypted(w, d, key)
  }

  function Encrypted(w: World, d: Document, key: Key): Outcome {
    if EncField(w, key, d.filename).None? then Stops(FilenameFailed)
    else if EncField(w, key, d.note).None? then Stops(NoteFailed)
    else
      var write := Write(d.id, EncField(w, key, d.filename).value, EncField(w, key, d.note).value);
      if w.accepts(write) then Migrated(write) else Stops(WriteFailed)
  }

  /** The ciphertext of a field: an empty one is left empty, and never fails. */
  predicate Sealed(w: World, key: Key, plain: string, sealed: string) {
    if |plain| == 0 then |sealed| == 0 else w.encrypt(key, plain) == Some(sealed)
  }

  /** A row is skipped exactly when its company's key is unusable, and migrated exactly
      when both fields are encrypted under the key and the update goes through. The
      first thing that fails is fatal. */
  lemma {:induction false} OutcomeIs(w: World, d: Document)
    ensures OutcomeOf(w, d) == Skipped <==> w.keyOf(d.company) == Unusable
    ensures OutcomeOf(w, d) == Stops(NoKey) <==> w.keyOf(d.company) == Unavailable
    ensures w.keyOf(d.company).Usable? ==>
              var key := w.keyOf(d.company).key;
              && (OutcomeOf(w, d) == Stops(FilenameFailed) <==>
                    |d.filename| > 0 && w.encrypt(key, d.filename).None?)
              && (OutcomeOf(w, d) == Stops(NoteFailed) <==>
                    !(|d.filename| > 0 && w.encrypt(key, d.filename).None?)
                    && |d.note| > 0 && w.encrypt(key, d.note).None?)
              && (forall sent :: OutcomeOf(w, d) == Migrated(sent) <==>
                    && sent.id == d.id && w.accepts(sent)
                    && Sealed(w, key, d.filename, sent.filenameEnc) && Sealed(w, key, d.note, sent.noteEnc))
  {
    if w.keyOf(d.company).Usable? {
      var key := w.keyOf(d.company).key;
      forall v: string ensures EncField(w, key, v) == if |v| == 0 then Some("") else w.encrypt(key, v) {}
    }
  }

  // ---- All rows, without a cache ----

  datatype Report = Report(migrated: nat, skipped: nat, writes: seq<Write>, fatal: Option<Fatal>)

  function Plainly(w: World, docs: seq<Document>): Report {
    if docs == [] then Report(0, 0, [], None)
    else
      var n := |docs| - 1;
      var before := Plainly(w, docs[..n]);
      if before.fatal.Some? then before else Counted(before, OutcomeOf(w, docs[n]))
  }

  function Counted(r: Report, outcome: Outcome): Report {
    match outcome
    case Migrated(write) => r.(migrated := r.migrated + 1, writes := r.writes + [write])
    case Skipped => r.(skipped := r.skipped + 1)
    case Stops(fatal) => r.(fatal := Some(fatal))
  }

  lemma {:induction false} NextRow(w: World, docs: seq<Document>, i: nat)
    requires i < |docs| && Plainly(w, docs[..i]).fatal.None?
    ensures Plainly(w, docs[..i + 1]) == Counted(Plainly(w, docs[..i]), OutcomeOf(w, docs[i]))
  {
    assert docs[..i + 1][..i] == docs[..i];
  }

  /** A fatal error ends the work. */
  lemma {:induction false} FatalPersists(w: World, docs: seq<Document>, k: nat)
    requires k <= |docs| && Plainly(w, docs[..k]).fatal.Some?
    ensures Plainly(w, docs) == Plainly(w, docs[..k])
    decreases |docs|
  {
    if k == |docs| {
      assert docs[..k] == docs;
    } else {
      var n := |docs| - 1;
      assert docs[..n][..k] == docs[..k];
      FatalPersists(w, docs[..n], k);
    }
  }

  // ---- The loop ----

  /** No company twice. */
  ghost predicate Distinct(companies: seq<Company>) {
    forall i, j :: 0 <= i < j < |companies| ==> companies[i] != companies[j]
  }

  /** The cache agrees with the world and was filled by the lookups made. */
  ghost predicate CacheSound(w: World, keys: map<Company, Key>, unusable: set<Company>, lookups: seq<Company>) {
    && (forall c :: c in keys ==> w.keyOf(c) == Usable(keys[c]))
    && (forall c :: c in unusable ==> w.keyOf(c) == Unusable)
    && (forall c :: c in lookups <==> c in keys || c in unusable)
    && Distinct(lookups)
  }

  lemma {:induction false} CacheGrows(
    w: World, keys: map<Company, Key>, unusable: set<Company>, lookups: seq<Company>, c: Company)
    requires CacheSound(w, keys, unusable, lookups) && c !in keys && c !in unusable
    ensures w.keyOf(c).Usable? ==> CacheSound(w, keys[c := w.keyOf(c).key], unusable, lookups + [c])
    ensures w.keyOf(c).Unusable? ==> CacheSound(w, keys, unusable + {c}, lookups + [c])
    ensures Distinct(lookups + [c])
  {
    assert c !in lookups;
  }

  /** Every company in the list has a row among the first k. */
  ghost predicate HaveRows(companies: seq<Company>, docs: seq<Document>, k: nat)
    requires k <= |docs|
  {
    forall c :: c in companies ==> exists i :: 0 <= i < k && docs[i].company == c
  }

  lemma {:induction false} HaveRowsGrows(companies: seq<Company>, docs: seq<Document>, k: nat)
    requires k < |docs| && HaveRows(companies, docs, k)
    ensures HaveRows(companies, docs, k + 1) && HaveRows(companies + [docs[k].company], docs, k + 1)
  {
    assert docs[k].company == docs[k].company;
  }

  lemma {:induction false} HaveRowsAll(companies: seq<Company>, docs: seq<Document>, k: nat)
    requires k <= |docs| && HaveRows(companies, docs, k)
    ensures HaveRows(companies, docs, |docs|)
  {
  }

  /** The company's key from the cache, or looked up once and remembered. */
  method CachedKey(w: World, keys: map<Company, Key>, unusable: set<Company>, lookups: seq<Company>, c: Company)
    returns (found: Lookup, keys': map<Company, Key>, unusable': set<Company>, lookups': seq<Company>)
    requires CacheSound(w, keys, unusable, lookups)
    ensures found == w.keyOf(c) && (lookups' == lookups || lookups' == lookups + [c])
    ensures !found.Unavailable? ==> CacheSound(w, keys', unusable', lookups')
    ensures Distinct(lookups')
  {
    keys', unusable', lookups' := keys, unusable, lookups;
    if c in unusable {
      return Unusable, keys', unusable', lookups';
    }
    if c !in keys {
      found := w.keyOf(c);
      CacheGrows(w, keys, unusable, lookups, c);
      lookups' := lookups + [c];
      match found {
        case Unavailable =>
        case Unusable => unusable' := unusable + {c};
        case Usable(key) => keys' := keys[c := key];
      }
      return;
    }
    found := Usable(keys[c]);
  }

  /** The loop's report and the key lookups it made. */
  method BackfillRows(w: World, docs: seq<Document>) returns (r: Report, lookups: seq<Company>)
    ensures r == Plainly(w, docs)
    ensures Distinct(lookups)
    ensures HaveRows(lookups, docs, |docs|)
  {
    var keys: map<Company, Key>, unusable: set<Company> := map[], {};
    var migrated, skipped := 0, 0;
    var writes: seq<Write> := [];
    lookups := [];
    for i := 0 to |docs|
      invariant Plainly(w, docs[..i]) == Report(migrated, skipped, writes, None)
      invariant CacheSound(w, keys, unusable, lookups)
      invariant HaveRows(lookups, docs, i)
    {
      var d := docs[i];
      NextRow(w, docs, i);
      HaveRowsGrows(lookups, docs, i);
      var found;
      found, keys, unusable, lookups := CachedKey(w, keys, unusable, lookups, d.company);
      if found.Unavailable? {
        FatalPersists(w, docs, i + 1);
        HaveRowsAll(lookups, docs, i + 1);
        return Report(migrated, skipped, writes, Some(NoKey)), lookups;
      }
      if found.Unusable? {
        skipped := skipped + 1;
        continue;
      }
      var write, fatal := EncryptAndWrite(w, d, found.key);
      if fatal.Some? {
        FatalPersists(w, docs, i + 1);
        HaveRowsAll(lookups, docs, i + 1);
        return Report(migrated, skipped, writes, fatal), lookups;
      }
      writes := writes + [write];
      migrated := migrated + 1;
    }
    assert docs[..|docs|] == docs;
    r := Report(migrated, skipped, writes, None);
  }

  /** The rest of the loop body, once the key is known. */
  method EncryptAndWrite(w: World, d: Document, key: Key) returns (write: Write, fatal: Option<Fatal>)
    ensures match Encrypted(w, d, key)
            case Migrated(expected) => fatal == None && write == expected
            case Skipped => false
            case Stops(why) => fatal == Some(why)
  {
    write := Write(d.id, "", "");
    var filename := EncField(w, key, d.filename);
    if filename.None? {
      return write, Some(FilenameFailed);
    }
    var note := EncField(w, key, d.note);
    if note.None? {
      return write, Some(NoteFailed);
    }
    write := Write(d.id, filename.value, note.value);
    fatal := if w.accepts(write) then None else Some(WriteFailed);
  }

  // ---- What the rule promises ----

  function WritesOf(w: World, docs: seq<Document>): seq<Write> {
    if docs == [] then []
    else
      WritesOf(w, docs[..|docs| - 1]) +
      match OutcomeOf(w, docs[|docs| - 1]) case Migrated(write) => [write] case _ => []
  }

  /** One row: written under its company's key exactly when that is usable. */
  predicate Accounted(w: World, d: Document) {
    match w.keyOf(d.company)
    case Usable(key) => OutcomeOf(w, d).Migrated? && OutcomeOf(w, d) == Encrypted(w, d, key)
    case Unusable => OutcomeOf(w, d).Skipped?
    case Unavailable => false
  }

  lemma {:induction false} OneRowAccounted(w: World, docs: seq<Document>)
    requires docs != [] && Plainly(w, docs).fatal.None?
    ensures var n := |docs| - 1; var before, after := Plainly(w, docs[..n]), Plainly(w, docs);
            && before.fatal.None? && Accounted(w, docs[n])
            && after.writes == before.writes
                 + (match OutcomeOf(w, docs[n]) case Migrated(write) => [write] case _ => [])
            && after.migrated + after.skipped == before.migrated + before.skipped + 1
            && after.migrated == before.migrated + (if OutcomeOf(w, docs[n]).Migrated? then 1 else 0)
  {
    var before := Plainly(w, docs[..|docs| - 1]);
    assert before.writes + [] == before.writes;
  }

  /** Without a fatal error every row is accounted for, and the rows written are
      exactly those whose company's key is usable, each under that key. */
  lemma {:induction false} EveryRowAccounted(w: World, docs: seq<Document>)
    requires Plainly(w, docs).fatal.None?
    ensures var r := Plainly(w, docs);
            r.migrated + r.skipped == |docs| && |r.writes| == r.migrated && r.writes == WritesOf(w, docs)
    ensures forall d :: d in docs ==> Accounted(w, d)
  {
    CountsAccounted(w, docs);
    RowsAccounted(w, docs);
  }

  lemma {:induction false} CountsAccounted(w: World, docs: seq<Document>)
    requires Plainly(w, docs).fatal.None?
    ensures var r := Plainly(w, docs);
            r.migrated + r.skipped == |docs| && |r.writes| == r.migrated && r.writes == WritesOf(w, docs)
  {
    if docs != [] {
      OneRowAccounted(w, docs);
      CountsAccounted(w, docs[..|docs| - 1]);
    }
  }

  lemma {:induction false} RowsAccounted(w: World, docs: seq<Document>)
    requires Plainly(w, docs).fatal.None?
    ensures forall d :: d in docs ==> Accounted(w, d)
  {
    if docs != [] {
      var n := |docs| - 1;
      OneRowAccounted(w, docs);
      RowsAccounted(w, docs[..n]);
      forall d | d in docs ensures Accounted(w, d) {
        assert d in docs[..n] || d == docs[n];
      }
    }
  }

  /** A fatal error leaves exactly the rows before the first bad one processed, and
      that row is the only one that stops the work. */
  lemma {:induction false} FatalLeavesPrefix(w: World, docs: seq<Document>) returns (k: nat)
    requires Plainly(w, docs).fatal.Some?
    ensures k < |docs| && Plainly(w, docs[..k]).fatal.None?
    ensures OutcomeOf(w, docs[k]) == Stops(Plainly(w, docs).fatal.value)
    ensures Plainly(w, docs) == Plainly(w, docs[..k]).(fatal := Plainly(w, docs).fatal)
    decreases |docs|
  {
    var n := |docs| - 1;
    if Plainly(w, docs[..n]).fatal.Some? {
      k := FatalLeavesPrefix(w, docs[..n]);
      assert docs[..n][..k] == docs[..k];
    } else {
      k := n;
    }
  }

  function DecField(decrypt: (Key, string) -> Option<string>, key: Key, v: string): string {
    if v == "" then "" else match decrypt(key, v) case Some(text) => text case None => ""
  }

  /** A field that cannot be decrypted reads as empty. */
  lemma {:induction false} FieldReads(decrypt: (Key, string) -> Option<string>, key: Key, v: string)
    ensures |v| == 0 || decrypt(key, v).None? ==> |DecField(decrypt, key, v)| == 0
    ensures |v| > 0 && decrypt(key, v).Some? ==> decrypt(key, v) == Some(DecField(decrypt, key, v))
  {
  }

  /** What was written reads back as what was there, if the cipher inverts and never
      yields an empty text. */
  lemma {:induction false} WrittenReadsBack(w: World, d: Document, decrypt: (Key, string) -> Option<string>)
    requires forall key, v, c :: w.encrypt(key, v) == Some(c) ==> c != "" && decrypt(key, c) == Some(v)
    requires OutcomeOf(w, d).Migrated?
    ensures var key, write := w.keyOf(d.company).key, OutcomeOf(w, d).write;
            write.id == d.id && DecField(decrypt, key, write.filenameEnc) == d.filename
              && DecField(decrypt, key, write.noteEnc) == d.note
  {
  }
}
