/** Reading one dbmate-style migration file: an up section, an optional down section, each with a marker
    line that may switch its transaction off. */
module MigrationFile {
  import opened Text
  import opened Wrappers

  datatype Migration = Migration(
    version: string, name: string,
    upSql: string, downSql: Option<string>,
    upTransactional: bool, downTransactional: bool
  )

  /** The file is not a migration, the reader panics on it, or it is read. */
  datatype Outcome = Skipped | Panics | Parsed(migration: Migration)

  /** The three fixed texts of the file format. */
  datatype Syntax = Syntax(up: string, down: string, off: string)

  function Dbmate(): Syntax {
    Syntax("-- migrate:up", "-- migrate:down", "transaction:false")
  }

  // ---------------------------------------------------------------------------
  // The reader
  // ---------------------------------------------------------------------------

  function LineEnd(content: string, start: nat): (e: nat)
    requires start <= |content|
    ensures start <= e <= |content|
  {
    match Find(content[start..], "\n")
    case Some(i) => start + i + 1
    case None => |content|
  }

  /** Whether the section is transactional, and where its SQL starts. */
  function ParseMarkerLine(content: string, markerPos: nat, markerLen: nat, off: string): (r: (bool, nat))
    requires markerPos + markerLen <= |content|
    ensures markerPos + markerLen <= r.1 <= |content|
  {
    var after := markerPos + markerLen;
    var end := LineEnd(content, after);
    (!Contains(content[after..end], off), end)
  }

  function StripSuffix(s: string, suffix: string): Option<string> {
    if |suffix| <= |s| && s[|s| - |suffix|..] == suffix then Some(s[..|s| - |suffix|]) else None
  }

  function SplitOnce(s: string, sep: char): Option<(string, string)> {
    match Find(s, [sep])
    case Some(i) => Some((s[..i], s[i + 1..]))
    case None => None
  }

  datatype Sections = Absent | Overlapping | Sections(up: string, down: Option<string>, upTx: bool, downTx: bool)

  function ParseContent(content: string, syntax: Syntax): Sections {
    match Find(content, syntax.up)
    case None => Absent
    case Some(upPos) =>
      var (upTx, upStart) := ParseMarkerLine(content, upPos, |syntax.up|, syntax.off);
      match Find(content, syntax.down)
      case None => Sections(Trim(content[upStart..]), None, upTx, true)
      case Some(downPos) =>
        if downPos < upStart then Overlapping
        else
          var (downTx, downStart) := ParseMarkerLine(content, downPos, |syntax.down|, syntax.off);
          var down := Trim(content[downStart..]);
          Sections(Trim(content[upStart..downPos]), if down == "" then None else Some(down), upTx, downTx)
  }

  function ParseFile(filename: string, content: string): Outcome {
    match StripSuffix(filename, ".sql")
    case None => Skipped
    case Some(stem) =>
      match SplitOnce(stem, '_')
      case None => Skipped
      case Some((version, name)) =>
        match ParseContent(content, Dbmate())
        case Absent => Skipped
        case Overlapping => Panics
        case Sections(up, down, upTx, downTx) => Parsed(Migration(version, name, up, down, upTx, downTx))
  }

  // ---------------------------------------------------------------------------
  // The writer
  // ---------------------------------------------------------------------------

  function Flag(transactional: bool, off: string): string {
    if transactional then "" else " " + off
  }

  function Section(marker: string, transactional: bool, off: string, sql: string): string {
    marker + (Flag(transactional, off) + "\n" + (sql + "\n"))
  }

  function PrintDown(down: Option<string>, transactional: bool, syntax: Syntax): string {
    if down.None? && transactional then ""
    else Section(syntax.down, transactional, syntax.off, if down.Some? then down.value else "")
  }

  function PrintContent(s: Sections, syntax: Syntax): string
    requires s.Sections?
  {
    Section(syntax.up, s.upTx, syntax.off, s.up) + PrintDown(s.down, s.downTx, syntax)
  }

  function Body(m: Migration): Sections {
    Sections(m.upSql, m.downSql, m.upTransactional, m.downTransactional)
  }

  function PrintName(m: Migration): string {
    m.version + "_" + m.name + ".sql"
  }

  /** What sections that can be written look like. */
  predicate Printable(s: Sections, syntax: Syntax) {
    && s.Sections?
    && Trimmed(s.up) && !Contains(s.up, syntax.down)
    && (s.down.Some? ==> s.down.value != "" && Trimmed(s.down.value))
  }

  // ---------------------------------------------------------------------------
  // The round trip
  // ---------------------------------------------------------------------------

  /** Neither marker word spans lines, and an up marker line never shows a down marker. */
  ghost predicate Sensible(syntax: Syntax) {
    && syntax.down != "" && '\n' !in syntax.down
    && syntax.off != "" && '\n' !in syntax.off
    && (forall tx: bool, j: nat :: !OccursAt(syntax.up + Flag(tx, syntax.off), syntax.down, j))
  }

  lemma DbmateSensible()
    ensures Sensible(Dbmate())
  {
    forall tx: bool, j: nat ensures !OccursAt(Dbmate().up + Flag(tx, Dbmate().off), Dbmate().down, j) {
      HeaderHasNoDownMarker(tx, j);
    }
  }

  lemma MarkerLetters()
    ensures var d := Dbmate(); d.down[0] == '-' && d.down[1] == '-' && d.down[11] == 'd'
    ensures var d := Dbmate(); d.up[1] == '-' && d.up[2] == ' ' && d.up[11] == 'u'
    ensures |Dbmate().up| == 13 && |Dbmate().down| == 15
  {
  }

  lemma DashesOnlyInFront(i: nat)
    ensures 2 <= i < |Dbmate().up| ==> Dbmate().up[i] != '-'
    ensures i < |Dbmate().off| ==> Dbmate().off[i] != '-'
  {
  }

  lemma HeaderHasNoDownMarker(tx: bool, j: nat)
    ensures !OccursAt(Dbmate().up + Flag(tx, Dbmate().off), Dbmate().down, j)
  {
    var d := Dbmate();
    MarkerLetters();
    forall i: nat
      ensures 2 <= i < |d.up| ==> d.up[i] != '-'
      ensures i < |d.off| ==> d.off[i] != '-'
    {
      DashesOnlyInFront(i);
    }
    NotInHeader(d.up, Flag(tx, d.off), d.down, j);
  }

  lemma NotInHeader(up: string, flag: string, down: string, j: nat)
    requires |down| == 15 && down[0] == '-' && down[1] == '-' && down[11] == 'd'
    requires |up| == 13 && up[1] == '-' && up[2] == ' ' && up[11] == 'u'
    requires forall i :: 2 <= i < |up| ==> up[i] != '-'
    requires forall i :: 0 <= i < |flag| ==> flag[i] != '-'
    ensures !OccursAt(up + flag, down, j)
  {
    var h := up + flag;
    if j + 15 <= |h| {
      var w := h[j..j + 15];
      assert w[0] == h[j] && w[1] == h[j + 1] && w[11] == h[j + 11];
    }
  }

  lemma NameRoundTrip(m: Migration)
    requires '_' !in m.version
    ensures StripSuffix(PrintName(m), ".sql") == Some(m.version + "_" + m.name)
    ensures SplitOnce(m.version + "_" + m.name, '_') == Some((m.version, m.name))
  {
    var stem := m.version + "_" + m.name;
    var f := PrintName(m);
    assert f == stem + ".sql";
    assert f[|f| - 4..] == ".sql" && f[..|f| - 4] == stem;
    var i := |m.version|;
    assert stem[i..i + 1] == "_";
    forall j | 0 <= j < i ensures !OccursAt(stem, ['_'], j) {
      assert stem[j] == m.version[j];
      assert stem[j..j + 1] == [stem[j]];
    }
    FindFirst(stem, ['_'], i);
    assert stem[..i] == m.version && stem[i + 1..] == m.name;
  }

  lemma FlagRead(tx: bool, off: string)
    requires off != "" && '\n' !in off
    ensures Contains(Flag(tx, off) + "\n", off) <==> !tx
  {
    var line := Flag(tx, off) + "\n";
    FindsFirst(line, off);
    if tx {
      assert line == "\n";
      assert line[0..1] == "\n" && off[0] != '\n';
    } else {
      assert line[1..1 + |off|] == off;
      assert OccursAt(line, off, 1);
    }
  }

  lemma FirstNewline(line: string, rest: string)
    requires '\n' !in line
    ensures Find(line + "\n" + rest, "\n") == Some(|line|)
  {
    var s := line + "\n" + rest;
    assert s[|line|..|line| + 1] == "\n";
    forall j | 0 <= j < |line| ensures !OccursAt(s, "\n", j) {
      assert s[j..j + 1] == [line[j]];
    }
    FindFirst(s, "\n", |line|);
  }

  /** A marker line is read back, and the SQL starts right after it. */
  lemma MarkerLineRead(pre: string, markerLen: nat, tx: bool, off: string, rest: string)
    requires markerLen <= |pre| && off != "" && '\n' !in off
    ensures var content := pre + (Flag(tx, off) + "\n" + rest);
            var start := |pre| + |Flag(tx, off)| + 1;
            && ParseMarkerLine(content, |pre| - markerLen, markerLen, off) == (tx, start)
            && content[start..] == rest
  {
    var flag := Flag(tx, off);
    var line := flag + "\n";
    var content := pre + (line + rest);
    assert content[|pre|..] == line + rest;
    FirstNewline(flag, rest);
    assert content[|pre|..|pre| + |line|] == line;
    FlagRead(tx, off);
  }

  lemma Assoc(a: string, b: string, c: string)
    ensures a + b + c == a + (b + c)
  {
    assert a + b + c == a + (b + c);
  }

  /** A text without a newline lies within one line. */
  lemma WithinLines(a: string, b: string, sub: string, j: nat)
    requires sub != "" && '\n' !in sub
    requires OccursAt(a + "\n" + b, sub, j)
    ensures OccursAt(a, sub, j) || (j > |a| && OccursAt(b, sub, j - |a| - 1))
  {
    var s := a + "\n" + b;
    var m := |sub|;
    assert forall k :: 0 <= k < m ==> sub[k] == s[j + k] && s[j + k] != '\n';
    assert s[|a|] == '\n';
    if j + m <= |a| {
      assert a[j..j + m] == s[j..j + m];
    } else {
      assert b[j - |a| - 1..j - |a| - 1 + m] == s[j..j + m];
    }
  }

  lemma DownMarkerPlace(h: string, up: string, tail: string, sub: string, j: nat)
    requires sub != "" && '\n' !in sub
    requires !OccursAt(h, sub, j) && !Contains(up, sub)
    requires OccursAt(h + "\n" + up + "\n" + tail, sub, j)
    ensures j >= |h| + |up| + 2 && OccursAt(tail, sub, j - |h| - |up| - 2)
  {
    Assoc(h + "\n", up + "\n", tail);
    FindsFirst(up, sub);
    WithinLines(h, up + "\n" + tail, sub, j);
    WithinLines(up, tail, sub, j - |h| - 1);
  }

  /** Behind two lines without it, a text is found where the rest starts with it, or not at all. */
  lemma FoundBehind(h: string, up: string, tail: string, sub: string)
    requires sub != "" && '\n' !in sub && !Contains(up, sub) && forall j: nat :: !OccursAt(h, sub, j)
    requires tail == "" || sub <= tail
    ensures Find(h + "\n" + up + "\n" + tail, sub) == if tail == "" then None else Some(|h| + |up| + 2)
  {
    var n := |h| + |up| + 2;
    var content := h + "\n" + up + "\n" + tail;
    FindsFirst(content, sub);
    forall j: nat | OccursAt(content, sub, j) ensures j >= n && OccursAt(tail, sub, j - n) {
      DownMarkerPlace(h, up, tail, sub, j);
    }
    if tail != "" {
      assert content[n..] == tail;
      assert content[n..n + |sub|] == sub;
      FindFirst(content, sub, n);
    }
  }

  lemma DownMarkerFound(s: Sections, syntax: Syntax)
    requires Sensible(syntax) && Printable(s, syntax)
    ensures var head := Section(syntax.up, s.upTx, syntax.off, s.up);
            Find(PrintContent(s, syntax), syntax.down)
            == if PrintDown(s.down, s.downTx, syntax) == "" then None else Some(|head|)
  {
    var h := syntax.up + Flag(s.upTx, syntax.off);
    var tail := PrintDown(s.down, s.downTx, syntax);
    assert Section(syntax.up, s.upTx, syntax.off, s.up) == h + "\n" + s.up + "\n";
    FoundBehind(h, s.up, tail, syntax.down);
  }

  lemma FoundAtStart(marker: string, content: string)
    requires marker <= content
    ensures Find(content, marker) == Some(0)
  {
    FindFirst(content, marker, 0);
  }

  lemma TakePart(content: string, start: nat, part: string, tail: string)
    requires start <= |content| && content[start..] == part + tail
    ensures start + |part| <= |content| && content[start..start + |part|] == part
  {
    assert |content[start..]| == |part| + |tail|;
    assert content[start..start + |part|] == content[start..][..|part|];
  }

  /** A section at the start of a file is read back. */
  lemma UpRead(marker: string, tx: bool, off: string, sql: string, tail: string)
    requires off != "" && '\n' !in off && Trimmed(sql)
    ensures var head := Section(marker, tx, off, sql);
            var (flag, start) := ParseMarkerLine(head + tail, 0, |marker|, off);
            && Find(head + tail, marker) == Some(0)
            && flag == tx
            && start <= |head| && Trim((head + tail)[start..|head|]) == sql
  {
    var head := Section(marker, tx, off, sql);
    var line, body := Flag(tx, off) + "\n", sql + "\n";
    Assoc(marker, line + body, tail);
    Assoc(line, body, tail);
    MarkerLineRead(marker, |marker|, tx, off, body + tail);
    FoundAtStart(marker, head + tail);
    TakePart(head + tail, |marker| + |line|, body, tail);
    TrimPadded(sql, "\n");
  }

  /** So is a section at the end. */
  lemma DownRead(head: string, marker: string, tx: bool, off: string, sql: string)
    requires off != "" && '\n' !in off && Trimmed(sql)
    ensures var content := head + Section(marker, tx, off, sql);
            var (flag, start) := ParseMarkerLine(content, |head|, |marker|, off);
            flag == tx && Trim(content[start..]) == sql
  {
    var pre, rest := head + marker, sql + "\n";
    var content := pre + (Flag(tx, off) + "\n" + rest);
    Assoc(head, marker, Flag(tx, off) + "\n" + rest);
    assert content == head + Section(marker, tx, off, sql);
    LastLineRead(pre, |head|, |marker|, tx, off, sql);
  }

  lemma LastLineRead(pre: string, place: nat, markerLen: nat, tx: bool, off: string, sql: string)
    requires place + markerLen == |pre| && off != "" && '\n' !in off && Trimmed(sql)
    ensures var content := pre + (Flag(tx, off) + "\n" + (sql + "\n"));
            var (flag, start) := ParseMarkerLine(content, place, markerLen, off);
            flag == tx && Trim(content[start..]) == sql
  {
    MarkerLineRead(pre, markerLen, tx, off, sql + "\n");
    TrimPadded(sql, "\n");
  }

  /** Writing printable sections and reading them back gives the same sections. */
  lemma SectionsRoundTrip(s: Sections, syntax: Syntax)
    requires Sensible(syntax) && Printable(s, syntax)
    ensures ParseContent(PrintContent(s, syntax), syntax) == s
  {
    var head := Section(syntax.up, s.upTx, syntax.off, s.up);
    var tail := PrintDown(s.down, s.downTx, syntax);
    UpRead(syntax.up, s.upTx, syntax.off, s.up, tail);
    DownMarkerFound(s, syntax);
    if tail == "" {
      assert head + tail == head;
    } else {
      DownRead(head, syntax.down, s.downTx, syntax.off, if s.down.Some? then s.down.value else "");
    }
  }

  /** Writing any printable migration and reading it back gives the same migration. */
  lemma RoundTrip(m: Migration)
    requires '_' !in m.version && Printable(Body(m), Dbmate())
    ensures ParseFile(PrintName(m), PrintContent(Body(m), Dbmate())) == Parsed(m)
  {
    NameRoundTrip(m);
    DbmateSensible();
    SectionsRoundTrip(Body(m), Dbmate());
  }

  // ---------------------------------------------------------------------------
  // Every file
  // ---------------------------------------------------------------------------

  lemma HasSeparator(s: string, c: char)
    ensures SplitOnce(s, c).Some? <==> c in s
    ensures SplitOnce(s, c).Some? ==> c !in SplitOnce(s, c).value.0
  {
    FindsFirst(s, [c]);
    if c in s {
      var i :| 0 <= i < |s| && s[i] == c;
      assert s[i..i + 1] == [c];
      assert OccursAt(s, [c], i);
    }
    if Find(s, [c]).Some? {
      var i := Find(s, [c]).value;
      assert s[i..i + 1][0] == c;
      forall j | 0 <= j < i ensures s[j] != c {
        assert s[j..j + 1] == [s[j]];
        assert !OccursAt(s, [c], j);
      }
    }
  }

  lemma OverlapsExactly(content: string, syntax: Syntax)
    ensures ParseContent(content, syntax).Overlapping? <==>
              && Find(content, syntax.up).Some? && Find(content, syntax.down).Some?
              && Find(content, syntax.down).value < LineEnd(content, Find(content, syntax.up).value + |syntax.up|)
  {
    var up, down := Find(content, syntax.up), Find(content, syntax.down);
    if up.Some? && down.Some? {
      var upStart := ParseMarkerLine(content, up.value, |syntax.up|, syntax.off).1;
      assert ParseContent(content, syntax).Overlapping? <==> down.value < upStart;
    }
  }

  /** The reader panics exactly on a migration file whose first down marker stands before the end of the first
      up marker's line. */
  lemma PanicsExactly(filename: string, content: string)
    ensures ParseFile(filename, content).Panics? <==>
              && StripSuffix(filename, ".sql").Some? && '_' in StripSuffix(filename, ".sql").value
              && Find(content, Dbmate().up).Some? && Find(content, Dbmate().down).Some?
              && Find(content, Dbmate().down).value
                 < LineEnd(content, Find(content, Dbmate().up).value + |Dbmate().up|)
  {
    OverlapsExactly(content, Dbmate());
    if StripSuffix(filename, ".sql").Some? {
      HasSeparator(StripSuffix(filename, ".sql").value, '_');
    }
  }

  lemma ContainsBehind(front: string, rest: string, sub: string)
    requires Contains(rest, sub)
    ensures Contains(front + rest, sub)
  {
    var s, n := front + rest, |front|;
    var i := Find(rest, sub).value;
    FindsFirst(rest, sub);
    FindsFirst(s, sub);
    assert s[n + i..n + i + |sub|] == rest[i..i + |sub|];
    assert OccursAt(s, sub, n + i);
  }

  /** A file that has its down section first makes the reader panic. */
  lemma DownFirstPanics(filename: string, rest: string)
    requires StripSuffix(filename, ".sql").Some? && '_' in StripSuffix(filename, ".sql").value
    requires Contains(rest, Dbmate().up)
    ensures ParseFile(filename, Dbmate().down + "\n" + rest).Panics?
  {
    var syntax := Dbmate();
    var content := syntax.down + "\n" + rest;
    ContainsBehind(syntax.down + "\n", rest, syntax.up);
    FoundAtStart(syntax.down, content);
    PanicsExactly(filename, content);
  }

  lemma SliceOfSlice(s: string, a: nat, b: nat, i: nat, j: nat)
    requires a <= b <= |s| && i <= j <= b - a
    ensures s[a..b][i..j] == s[a + i..a + j]
  {
    assert forall q :: 0 <= q < j - i ==> s[a..b][i..j][q] == s[a + i..a + j][q];
  }

  lemma NoneInPart(content: string, start: nat, section: string, i: nat, j: nat, sub: string)
    requires start <= |content|
    requires match Find(content, sub)
             case Some(d) => start <= d && section == content[start..d]
             case None => section == content[start..]
    requires i <= j <= |section| && sub != ""
    ensures !Contains(section[i..j], sub)
  {
    var part := section[i..j];
    FindsFirst(content, sub);
    FindsFirst(part, sub);
    assert section == content[start..start + |section|];
    SliceOfSlice(content, start, start + |section|, i, j);
    forall k: nat ensures !OccursAt(part, sub, k) {
      if OccursAt(part, sub, k) {
        OccursInside(content, start + i, start + j, sub, k);
      }
    }
  }

  lemma OccursInside(s: string, a: nat, b: nat, sub: string, k: nat)
    requires a <= b <= |s| && OccursAt(s[a..b], sub, k)
    ensures OccursAt(s, sub, a + k) && a + k + |sub| <= b
  {
    SliceOfSlice(s, a, b, k, k + |sub|);
  }

  lemma ParsedIsPrintable(content: string, syntax: Syntax)
    requires syntax.down != "" && ParseContent(content, syntax).Sections?
    ensures Printable(ParseContent(content, syntax), syntax)
  {
    var upPos := Find(content, syntax.up).value;
    var upStart := ParseMarkerLine(content, upPos, |syntax.up|, syntax.off).1;
    var found := Find(content, syntax.down);
    var section := if found.Some? then content[upStart..found.value] else content[upStart..];
    var i, j := TrimPart(section);
    NoneInPart(content, upStart, section, i, j, syntax.down);
    if found.Some? {
      var downStart := ParseMarkerLine(content, found.value, |syntax.down|, syntax.off).1;
      var a, b := TrimPart(content[downStart..]);
    }
  }

  /** Whatever file was read, writing its parts out again is a file that reads the same. */
  lemma RewriteStable(filename: string, content: string)
    requires ParseFile(filename, content).Parsed?
    ensures var m := ParseFile(filename, content).migration;
            && '_' !in m.version && Printable(Body(m), Dbmate())
            && ParseFile(PrintName(m), PrintContent(Body(m), Dbmate())) == Parsed(m)
  {
    var m := ParseFile(filename, content).migration;
    HasSeparator(StripSuffix(filename, ".sql").value, '_');
    DbmateSensible();
    ParsedIsPrintable(content, Dbmate());
    RoundTrip(m);
  }
}
