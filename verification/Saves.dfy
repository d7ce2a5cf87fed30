// SaveCursor of pkg/cursor.go when several run at once, as two polls can: one temp path is
// shared by all, and what is written goes to the file that was opened, wherever a rename has
// put it meanwhile.
module Saves {
  import opened Strings
  import opened TaskIds
  import opened Cursors

  // ---- files ---------------------------------------------------------------

  /** What of a save the file system sees: the temp path opened and truncated, the document
      written through what was opened, the temp path renamed over the cursor path. A save
      that dies leaves the rest of them out. */
  datatype Effect = Open(saver: nat) | Write(saver: nat, cursor: Cursor) | Rename

  /** Files by number, the two paths, and what each saver has open. */
  datatype Files = Files(bytes: seq<string>, tmp: Option<nat>, file: Option<nat>, open: map<nat, nat>) {
    predicate Valid() {
      && (tmp.Some? ==> tmp.value < |bytes|) && (file.Some? ==> file.value < |bytes|)
      && (tmp.Some? && file.Some? ==> tmp.value != file.value)
      && (forall s :: s in open ==> open[s] < |bytes|)
    }
  }

  type Encode = Cursor -> string

  /** json.Marshal: never empty, and no document begins another. */
  ghost predicate IsEncoding(encode: Encode) {
    forall a, b :: encode(a) != "" && (encode(a) <= encode(b) ==> a == b)
  }

  ghost predicate Whole(encode: Encode, bytes: string) { exists c :: bytes == encode(c) }

  /** Writing at the start of a file leaves what reaches further in place. */
  function Over(data: string, bytes: string): string {
    if |bytes| <= |data| then data else data + bytes[|data|..]
  }

  function Do(encode: Encode, f: Files, e: Effect): (f': Files)
    requires f.Valid()
    ensures f'.Valid()
  {
    match e
    case Open(s) =>
      if f.tmp.None? then Files(f.bytes + [""], Some(|f.bytes|), f.file, f.open[s := |f.bytes|])
      else f.(bytes := f.bytes[f.tmp.value := ""], open := f.open[s := f.tmp.value])
    case Write(s, c) =>
      if s !in f.open then f
      else
        var i := f.open[s];
        f.(bytes := f.bytes[i := Over(encode(c), f.bytes[i])], open := f.open - {s})
    case Rename => if f.tmp.None? then f else f.(tmp := None, file := f.tmp)
  }

  function DoAll(encode: Encode, f: Files, es: seq<Effect>): (f': Files)
    requires f.Valid()
    ensures f'.Valid()
  {
    if es == [] then f else Do(encode, DoAll(encode, f, es[..|es| - 1]), es[|es| - 1])
  }

  ghost predicate Torn(encode: Encode, f: Files)
    requires f.Valid()
  {
    f.file.Some? && !Whole(encode, f.bytes[f.file.value])
  }

  /** No temp file and nothing open; the cursor file is absent or whole. A temp file left
      behind is that of a save which died. */
  function StartOf(encode: Encode, saved: Option<Cursor>): (f: Files)
    ensures f.Valid()
  {
    match saved
    case None => Files([], None, None, map[])
    case Some(c) => Files([encode(c)], None, Some(0), map[])
  }

  // ---- who writes where, in which order, and how much ----------------------

  /** Where a file someone has open is by now. */
  datatype Place = AtTmp | AtFile | Replaced

  /** Sizes and order alone: how much was written, write by write, into the temp file since
      it was last opened, and likewise into the file that was renamed over the cursor path. */
  datatype Ledger = Ledger(tmp: Option<seq<nat>>, file: Option<seq<nat>>, open: map<nat, Place>)

  function Moved(at: Place): Place { if at == AtTmp then AtFile else Replaced }

  function Note(encode: Encode, l: Ledger, e: Effect): Ledger {
    match e
    case Open(s) => l.(tmp := Some([]), open := l.open[s := AtTmp])
    case Write(s, c) =>
      if s !in l.open then l
      else
        var n, rest := |encode(c)|, l.open - {s};
        if l.open[s] == AtTmp && l.tmp.Some? then l.(tmp := Some(l.tmp.value + [n]), open := rest)
        else if l.open[s] == AtFile && l.file.Some? then l.(file := Some(l.file.value + [n]), open := rest)
        else l.(open := rest)
    case Rename =>
      if l.tmp.None? then l else Ledger(None, l.tmp, map s | s in l.open :: Moved(l.open[s]))
  }

  function LedgerOf(encode: Encode, es: seq<Effect>): Ledger {
    if es == [] then Ledger(None, None, map[])
    else Note(encode, LedgerOf(encode, es[..|es| - 1]), es[|es| - 1])
  }

  predicate AllWithin(sizes: seq<nat>, n: nat) { forall i :: 0 <= i < |sizes| ==> sizes[i] <= n }

  /** Something was written, and nothing longer in front of the last. */
  predicate LongestLast(sizes: seq<nat>) { sizes != [] && AllWithin(sizes, sizes[|sizes| - 1]) }

  /** The two ways to tear: renaming a temp file that was not written since it was opened, or
      not written longest last; and, through a file that another save renamed, writing less
      than was written before. */
  predicate Tears(encode: Encode, l: Ledger, e: Effect) {
    match e
    case Open(_) => false
    case Write(s, c) => s in l.open && l.open[s] == AtFile && l.file.Some? && !AllWithin(l.file.value, |encode(c)|)
    case Rename => l.tmp.Some? && !LongestLast(l.tmp.value)
  }

  // ---- when a file is whole ------------------------------------------------

  function Longest(sizes: seq<nat>): nat {
    if sizes == [] then 0 else Max(Longest(sizes[..|sizes| - 1]), sizes[|sizes| - 1])
  }

  lemma {:induction false} LongestBounds(sizes: seq<nat>, n: nat)
    ensures AllWithin(sizes, n) <==> Longest(sizes) <= n
  {
    if sizes != [] {
      var k := |sizes| - 1;
      LongestBounds(sizes[..k], n);
      assert forall i :: 0 <= i < k ==> sizes[..k][i] == sizes[i];
    }
  }

  ghost predicate Holds(encode: Encode, bytes: string, sizes: seq<nat>) {
    |bytes| == Longest(sizes) && (Whole(encode, bytes) <==> LongestLast(sizes))
  }

  lemma WriteHolds(encode: Encode, bytes: string, sizes: seq<nat>, c: Cursor)
    requires IsEncoding(encode) && Holds(encode, bytes, sizes)
    ensures Holds(encode, Over(encode(c), bytes), sizes + [|encode(c)|])
    ensures Whole(encode, Over(encode(c), bytes)) <==> AllWithin(sizes, |encode(c)|)
  {
    var data, all := encode(c), sizes + [|encode(c)|];
    LongestBounds(sizes, |data|);
    assert all[..|sizes|] == sizes;
    assert LongestLast(all) <==> AllWithin(sizes, |data|) by {
      assert forall i :: 0 <= i < |sizes| ==> all[i] == sizes[i];
    }
    if |bytes| > |data| {
      assert data <= Over(data, bytes);
      if b :| Over(data, bytes) == encode(b) {
        assert false;
      }
    }
  }

  ghost predicate Matches(encode: Encode, f: Files, l: Ledger)
    requires f.Valid()
  {
    && (f.tmp.Some? <==> l.tmp.Some?)
    && (l.tmp.Some? ==> Holds(encode, f.bytes[f.tmp.value], l.tmp.value))
    && (if l.file.Some? then f.file.Some? && Holds(encode, f.bytes[f.file.value], l.file.value)
        else !Torn(encode, f))
    && f.open.Keys == l.open.Keys
    && forall s :: s in f.open ==> && (l.open[s] == AtTmp <==> f.tmp == Some(f.open[s]))
                                   && (l.open[s] == AtFile <==> f.file == Some(f.open[s]))
                                   && (l.open[s] == AtFile ==> l.file.Some?)
  }

  lemma WriteMatches(encode: Encode, f: Files, l: Ledger, s: nat, c: Cursor)
    requires IsEncoding(encode) && f.Valid() && Matches(encode, f, l)
    ensures Matches(encode, Do(encode, f, Write(s, c)), Note(encode, l, Write(s, c)))
  {
    if s in f.open {
      var i := f.open[s];
      if l.open[s] == AtTmp {
        WriteHolds(encode, f.bytes[i], l.tmp.value, c);
      } else if l.open[s] == AtFile {
        WriteHolds(encode, f.bytes[i], l.file.value, c);
      }
    }
  }

  lemma OpenMatches(encode: Encode, f: Files, l: Ledger, s: nat)
    requires IsEncoding(encode) && f.Valid() && Matches(encode, f, l)
    ensures Matches(encode, Do(encode, f, Open(s)), Note(encode, l, Open(s)))
  {
    assert Holds(encode, "", []);
  }

  lemma RenameMatches(encode: Encode, f: Files, l: Ledger)
    requires f.Valid() && Matches(encode, f, l)
    ensures Matches(encode, Do(encode, f, Rename), Note(encode, l, Rename))
  {
  }

  lemma {:induction false} RunsMatch(encode: Encode, saved: Option<Cursor>, es: seq<Effect>)
    requires IsEncoding(encode)
    ensures Matches(encode, DoAll(encode, StartOf(encode, saved), es), LedgerOf(encode, es))
  {
    if es != [] {
      var front, e := es[..|es| - 1], es[|es| - 1];
      RunsMatch(encode, saved, front);
      var f, l := DoAll(encode, StartOf(encode, saved), front), LedgerOf(encode, front);
      match e
      case Open(s) => OpenMatches(encode, f, l, s);
      case Write(s, c) => WriteMatches(encode, f, l, s, c);
      case Rename => RenameMatches(encode, f, l);
    }
  }

  // ---- when saves tear -----------------------------------------------------

  /** The effect writes into the cursor file or puts another in its place. */
  predicate Touches(l: Ledger, e: Effect) {
    match e
    case Open(_) => false
    case Write(s, _) => s in l.open && l.open[s] == AtFile
    case Rename => l.tmp.Some?
  }

  /** Behind each effect: torn exactly if the effect tears, or found it torn and left it so. */
  lemma TornStep(encode: Encode, f: Files, l: Ledger, e: Effect)
    requires IsEncoding(encode) && f.Valid() && Matches(encode, f, l)
    ensures Torn(encode, Do(encode, f, e)) <==> Tears(encode, l, e) || (Torn(encode, f) && !Touches(l, e))
  {
    match e
    case Open(s) =>
    case Write(s, c) =>
      if Touches(l, e) { WriteHolds(encode, f.bytes[f.open[s]], l.file.value, c); }
    case Rename =>
  }

  ghost predicate TornAt(encode: Encode, saved: Option<Cursor>, es: seq<Effect>, k: nat)
    requires k <= |es|
  {
    Torn(encode, DoAll(encode, StartOf(encode, saved), es[..k]))
  }

  predicate TearsAt(encode: Encode, es: seq<Effect>, k: nat)
    requires k < |es|
  {
    Tears(encode, LedgerOf(encode, es[..k]), es[k])
  }

  lemma TornAtStep(encode: Encode, saved: Option<Cursor>, es: seq<Effect>, k: nat)
    requires IsEncoding(encode) && k < |es|
    ensures TornAt(encode, saved, es, k + 1)
       <==> TearsAt(encode, es, k) || (TornAt(encode, saved, es, k) && !Touches(LedgerOf(encode, es[..k]), es[k]))
  {
    RunsMatch(encode, saved, es[..k]);
    TornStep(encode, DoAll(encode, StartOf(encode, saved), es[..k]), LedgerOf(encode, es[..k]), es[k]);
    assert es[..k + 1][..k] == es[..k];
  }

  lemma {:induction false} TornWasTorn(encode: Encode, saved: Option<Cursor>, es: seq<Effect>, k: nat)
    requires IsEncoding(encode) && k <= |es| && TornAt(encode, saved, es, k)
    ensures exists j :: 0 <= j < k && TearsAt(encode, es, j)
  {
    if k > 0 {
      TornAtStep(encode, saved, es, k - 1);
      if !TearsAt(encode, es, k - 1) { TornWasTorn(encode, saved, es, k - 1); }
    }
  }

  /** Whatever saves overlap, and however: the cursor file is torn at some moment exactly if
      some rename finds the temp file not written longest last, or some write through a file
      renamed by another save is shorter than one before it. */
  lemma TornIff(encode: Encode, saved: Option<Cursor>, es: seq<Effect>)
    requires IsEncoding(encode)
    ensures (exists k :: 0 <= k <= |es| && TornAt(encode, saved, es, k))
       <==> exists k :: 0 <= k < |es| && TearsAt(encode, es, k)
  {
    if k :| 0 <= k <= |es| && TornAt(encode, saved, es, k) {
      TornWasTorn(encode, saved, es, k);
    }
    if k :| 0 <= k < |es| && TearsAt(encode, es, k) {
      TornAtStep(encode, saved, es, k);
      assert TornAt(encode, saved, es, k + 1);
    }
  }

  // ---- one save at a time --------------------------------------------------

  /** A save, cut short behind any of its effects. */
  datatype Save = Save(saver: nat, cursor: Cursor, done: nat)

  function EffectsOf(v: Save): seq<Effect> {
    [Open(v.saver), Write(v.saver, v.cursor), Rename][..if v.done < 3 then v.done else 3]
  }

  function EffectsOfAll(saves: seq<Save>): seq<Effect> {
    if saves == [] then [] else EffectsOfAll(saves[..|saves| - 1]) + EffectsOf(saves[|saves| - 1])
  }

  lemma LedgerSnoc(encode: Encode, es: seq<Effect>, e: Effect)
    ensures LedgerOf(encode, es + [e]) == Note(encode, LedgerOf(encode, es), e)
  {
    assert (es + [e])[..|es|] == es;
  }

  lemma NoEffectOfASaveTears(encode: Encode, before: seq<Effect>, v: Save, j: nat)
    requires j < |EffectsOf(v)|
    ensures !Tears(encode, LedgerOf(encode, before + EffectsOf(v)[..j]), EffectsOf(v)[j])
  {
    var es := EffectsOf(v);
    if j == 1 {
      LedgerSnoc(encode, before, es[0]);
      assert es[..1] == [es[0]];
    } else if j == 2 {
      LedgerSnoc(encode, before, es[0]);
      LedgerSnoc(encode, before + [es[0]], es[1]);
      assert before + es[..2] == before + [es[0]] + [es[1]];
    }
  }

  lemma {:induction false} NoSaveTears(encode: Encode, saves: seq<Save>, k: nat)
    requires k < |EffectsOfAll(saves)|
    ensures !TearsAt(encode, EffectsOfAll(saves), k)
  {
    var all, front := EffectsOfAll(saves), EffectsOfAll(saves[..|saves| - 1]);
    var es := EffectsOf(saves[|saves| - 1]);
    if k < |front| {
      NoSaveTears(encode, saves[..|saves| - 1], k);
      assert all[..k] == front[..k];
    } else {
      NoEffectOfASaveTears(encode, front, saves[|saves| - 1], k - |front|);
      assert all[..k] == front + es[..k - |front|];
    }
  }

  /** Saves one behind another, each dying behind any of its effects, never tear the file. */
  lemma SerialSavesNeverTear(encode: Encode, saved: Option<Cursor>, saves: seq<Save>, k: nat)
    requires IsEncoding(encode) && k <= |EffectsOfAll(saves)|
    ensures !TornAt(encode, saved, EffectsOfAll(saves), k)
  {
    if TornAt(encode, saved, EffectsOfAll(saves), k) {
      TornWasTorn(encode, saved, EffectsOfAll(saves), k);
      var j :| 0 <= j < k && TearsAt(encode, EffectsOfAll(saves), j);
      NoSaveTears(encode, saves, j);
      assert false;
    }
  }

  // ---- what a load makes of it ---------------------------------------------

  ghost function Read(encode: Encode, bytes: string): FileContent {
    if Whole(encode, bytes) then
      var c :| bytes == encode(c);
      Json(Marshal(c))
    else Corrupt
  }

  /** The two paths as LoadCursor and SaveCursor see them. */
  ghost function View(encode: Encode, f: Files): Disk
    requires f.Valid()
  {
    Disk(if f.file.Some? then Some(Read(encode, f.bytes[f.file.value])) else None,
         if f.tmp.Some? then Some(Read(encode, f.bytes[f.tmp.value])) else None)
  }

  lemma ReadInvertsEncode(encode: Encode, c: Cursor)
    requires IsEncoding(encode)
    ensures Read(encode, encode(c)) == Json(Marshal(c)) && Read(encode, "") == Corrupt
  {
    assert Whole(encode, encode(c));
  }

  lemma OpenIsOpenTmp(encode: Encode, f: Files, s: nat)
    requires IsEncoding(encode) && f.Valid()
    ensures View(encode, Do(encode, f, Open(s))) == OpenTmp(View(encode, f))
  {
  }

  lemma WriteIsFillTmp(encode: Encode, f: Files, s: nat, c: Cursor)
    requires IsEncoding(encode) && f.Valid()
    requires s in f.open && f.tmp == Some(f.open[s]) && f.bytes[f.tmp.value] == ""
    ensures View(encode, Do(encode, f, Write(s, c))) == FillTmp(View(encode, f), c)
  {
    ReadInvertsEncode(encode, c);
  }

  lemma DoSnoc(encode: Encode, f: Files, es: seq<Effect>, e: Effect)
    requires f.Valid()
    ensures DoAll(encode, f, es + [e]) == Do(encode, DoAll(encode, f, es), e)
  {
    assert (es + [e])[..|es|] == es;
  }

  /** Alone, the effects of a save are the steps SaveCursor is specified by. */
  lemma LoneSave(encode: Encode, f: Files, v: Save)
    requires IsEncoding(encode) && f.Valid()
    ensures View(encode, DoAll(encode, f, EffectsOf(v))) == AfterSaveSteps(View(encode, f), v.cursor, v.done)
  {
    var s, c := v.saver, v.cursor;
    DoSnoc(encode, f, [], Open(s));
    DoSnoc(encode, f, [Open(s)], Write(s, c));
    DoSnoc(encode, f, [Open(s), Write(s, c)], Rename);
    OpenIsOpenTmp(encode, f, s);
    WriteIsFillTmp(encode, Do(encode, f, Open(s)), s, c);
    var es := EffectsOf(v);
    assert v.done == 1 ==> es == [] + [Open(s)];
    assert v.done == 2 ==> es == [Open(s)] + [Write(s, c)];
    assert v.done >= 3 ==> es == [Open(s), Write(s, c)] + [Rename];
    assert [] + [Open(s)] == [Open(s)] && [Open(s)] + [Write(s, c)] == [Open(s), Write(s, c)];
  }

  /** A torn cursor is not noticed: the next load is a cold start. */
  lemma TornLoadsCold(encode: Encode, f: Files, startTime: Time)
    requires f.Valid() && Torn(encode, f)
    ensures Loaded(View(encode, f).file, startTime) == NewCursor(startTime)
  {
  }

  /** So overlapping saves do tear: behind whatever effects, a rename right behind another
      save's open puts an empty file in place, until that save's write makes it whole. */
  lemma RenameBehindOpenTears(encode: Encode, saved: Option<Cursor>, es: seq<Effect>, s: nat, c: Cursor, t: Time)
    requires IsEncoding(encode)
    ensures var torn := DoAll(encode, StartOf(encode, saved), es + [Open(s)] + [Rename]);
            && Torn(encode, torn) && Loaded(View(encode, torn).file, t) == NewCursor(t)
            && Loaded(View(encode, Do(encode, torn, Write(s, c))).file, t) == c
  {
    var start := StartOf(encode, saved);
    DoSnoc(encode, start, es, Open(s));
    DoSnoc(encode, start, es + [Open(s)], Rename);
    var torn := DoAll(encode, start, es + [Open(s)] + [Rename]);
    assert torn.bytes[torn.file.value] == "" && torn.open[s] == torn.file.value;
    ReadInvertsEncode(encode, c);
    TornLoadsCold(encode, torn, t);
  }
}
