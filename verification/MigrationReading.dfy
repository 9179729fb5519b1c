/** What the migration-file reader makes of any file, said by places in its text. */
module MigrationReading {
  import opened MigrationFile
  import opened Text
  import opened Wrappers

  ghost predicate Occurs(s: string, sub: string) {
    exists j: nat :: OccursAt(s, sub, j)
  }

  /** `e` is behind the first newline from `start` on, or the end of the text if there is none. */
  predicate LineEndsAt(content: string, start: nat, e: nat) {
    && start <= e <= |content|
    && if '\n' in content[start..] then e > start && content[e - 1] == '\n' && '\n' !in content[start..e - 1]
       else e == |content|
  }

  /** The first `marker` stands at `pos`, its line ends at `start`, and the rest of the line has `off` on it or not. */
  ghost predicate MarkerLine(content: string, marker: string, off: string, pos: nat, tx: bool, start: nat) {
    && First(content, marker, Some(pos))
    && LineEndsAt(content, pos + |marker|, start)
    && (tx <==> !Occurs(content[pos + |marker|..start], off))
  }

  /** No down marker: everything behind the up marker's line is the up text. */
  ghost predicate UpOnly(content: string, syntax: Syntax, s: Sections) {
    && s.Sections? && s.down.None? && s.downTx && !Occurs(content, syntax.down)
    && exists pos: nat, start: nat :: MarkerLine(content, syntax.up, syntax.off, pos, s.upTx, start)
                            && TrimsTo(content[start..], s.up)
  }

  /** The up text goes from the up marker's line to the down marker, the down text from its line to the end. */
  ghost predicate UpAndDown(content: string, syntax: Syntax, s: Sections) {
    && s.Sections?
    && exists pos: nat, start: nat, downPos: nat, downStart: nat ::
         && MarkerLine(content, syntax.up, syntax.off, pos, s.upTx, start)
         && MarkerLine(content, syntax.down, syntax.off, downPos, s.downTx, downStart)
         && start <= downPos && Texts(content, start, downPos, downStart, s)
  }

  /** The two texts, white space at their ends left off; an empty down text is none. */
  ghost predicate Texts(content: string, start: nat, downPos: nat, downStart: nat, s: Sections)
    requires start <= downPos <= |content| && downStart <= |content| && s.Sections?
  {
    && TrimsTo(content[start..downPos], s.up)
    && TrimsTo(content[downStart..], if s.down.Some? then s.down.value else "")
    && s.down != Some("")
  }

  // ---------------------------------------------------------------------------
  // Searching
  // ---------------------------------------------------------------------------

  lemma FindExactly(s: string, sub: string, i: nat)
    ensures Find(s, sub) == Some(i) <==> First(s, sub, Some(i))
    ensures Contains(s, sub) <==> Occurs(s, sub)
  {
    FindsFirst(s, sub);
    if First(s, sub, Some(i)) {
      FindFirst(s, sub, i);
    }
    if Contains(s, sub) {
      assert OccursAt(s, sub, Find(s, sub).value);
    }
  }

  lemma OccursOne(s: string, c: char, j: nat)
    ensures OccursAt(s, [c], j) <==> j < |s| && s[j] == c
  {
    if j < |s| {
      assert s[j..j + 1] == [s[j]];
    }
  }

  lemma LineEndExactly(content: string, start: nat, e: nat)
    requires start <= |content|
    ensures LineEnd(content, start) == e <==> LineEndsAt(content, start, e)
  {
    var rest := content[start..];
    FindsFirst(rest, "\n");
    forall j: nat ensures OccursAt(rest, "\n", j) <==> j < |rest| && rest[j] == '\n' {
      OccursOne(rest, '\n', j);
    }
    var found := Find(rest, "\n");
    if found.Some? {
      assert rest[found.value] == '\n' && content[start + found.value] == '\n';
      LineEndUnique(content, start, start + found.value + 1, e);
    } else {
      assert '\n' !in rest;
    }
  }

  lemma LineEndUnique(content: string, start: nat, e: nat, e': nat)
    requires start < e <= |content| && content[e - 1] == '\n' && forall j :: start <= j < e - 1 ==> content[j] != '\n'
    ensures LineEndsAt(content, start, e)
    ensures LineEndsAt(content, start, e') ==> e' == e
  {
    assert content[start..][e - 1 - start] == '\n';
    if LineEndsAt(content, start, e') {
      assert forall j :: start <= j < e' - 1 ==> content[j] == content[start..e' - 1][j - start];
    }
  }

  lemma MarkerLineExactly(content: string, marker: string, off: string, pos: nat, tx: bool, start: nat)
    ensures MarkerLine(content, marker, off, pos, tx, start) <==>
              Find(content, marker) == Some(pos) && ParseMarkerLine(content, pos, |marker|, off) == (tx, start)
  {
    FindExactly(content, marker, pos);
    if Find(content, marker) == Some(pos) {
      var after := pos + |marker|;
      LineEndExactly(content, after, start);
      if LineEnd(content, after) == start {
        FindExactly(content[after..start], off, 0);
      }
    }
  }

  // ---------------------------------------------------------------------------
  // Reading
  // ---------------------------------------------------------------------------

  lemma ReadIsMeant(content: string, syntax: Syntax)
    ensures var s := ParseContent(content, syntax);
            s.Sections? ==> UpOnly(content, syntax, s) || UpAndDown(content, syntax, s)
  {
    var s := ParseContent(content, syntax);
    if s.Sections? {
      var pos := Find(content, syntax.up).value;
      var (upTx, start) := ParseMarkerLine(content, pos, |syntax.up|, syntax.off);
      MarkerLineExactly(content, syntax.up, syntax.off, pos, upTx, start);
      var found := Find(content, syntax.down);
      FindExactly(content, syntax.down, 0);
      if found.None? {
        TrimExactly(content[start..], s.up);
      } else {
        var (downTx, downStart) := ParseMarkerLine(content, found.value, |syntax.down|, syntax.off);
        MarkerLineExactly(content, syntax.down, syntax.off, found.value, downTx, downStart);
        TextsExactly(content, start, found.value, downStart, s);
      }
    }
  }

  lemma TextsExactly(content: string, start: nat, downPos: nat, downStart: nat, s: Sections)
    requires start <= downPos <= |content| && downStart <= |content| && s.Sections?
    ensures Texts(content, start, downPos, downStart, s) <==>
              && s.up == Trim(content[start..downPos])
              && var down := Trim(content[downStart..]); s.down == (if down == "" then None else Some(down))
  {
    TrimExactly(content[start..downPos], s.up);
    TrimExactly(content[downStart..], if s.down.Some? then s.down.value else "");
  }

  lemma UpOnlyIsRead(content: string, syntax: Syntax, s: Sections)
    requires UpOnly(content, syntax, s)
    ensures ParseContent(content, syntax) == s
  {
    var pos: nat, start: nat :| MarkerLine(content, syntax.up, syntax.off, pos, s.upTx, start) && TrimsTo(content[start..], s.up);
    MarkerLineExactly(content, syntax.up, syntax.off, pos, s.upTx, start);
    FindExactly(content, syntax.down, 0);
    TrimExactly(content[start..], s.up);
  }

  lemma BothAreRead(content: string, syntax: Syntax, s: Sections, pos: nat, start: nat, downPos: nat, downStart: nat)
    requires s.Sections? && Find(content, syntax.up) == Some(pos)
    requires ParseMarkerLine(content, pos, |syntax.up|, syntax.off) == (s.upTx, start)
    requires Find(content, syntax.down) == Some(downPos)
    requires ParseMarkerLine(content, downPos, |syntax.down|, syntax.off) == (s.downTx, downStart)
    requires start <= downPos && Texts(content, start, downPos, downStart, s)
    ensures ParseContent(content, syntax) == s
  {
    TextsExactly(content, start, downPos, downStart, s);
  }

  lemma UpAndDownIsRead(content: string, syntax: Syntax, s: Sections)
    requires UpAndDown(content, syntax, s)
    ensures ParseContent(content, syntax) == s
  {
    var pos: nat, start: nat, downPos: nat, downStart: nat :|
      && MarkerLine(content, syntax.up, syntax.off, pos, s.upTx, start)
      && MarkerLine(content, syntax.down, syntax.off, downPos, s.downTx, downStart)
      && start <= downPos && Texts(content, start, downPos, downStart, s);
    MarkerLineExactly(content, syntax.up, syntax.off, pos, s.upTx, start);
    MarkerLineExactly(content, syntax.down, syntax.off, downPos, s.downTx, downStart);
    BothAreRead(content, syntax, s, pos, start, downPos, downStart);
  }

  lemma NameExactly(filename: string, version: string, name: string)
    ensures && StripSuffix(filename, ".sql").Some?
            && SplitOnce(StripSuffix(filename, ".sql").value, '_') == Some((version, name)) <==>
              filename == version + "_" + name + ".sql" && '_' !in version
  {
    var suffix := StripSuffix(filename, ".sql");
    if suffix.Some? {
      assert filename == suffix.value + ".sql";
      var stem := suffix.value;
      HasSeparator(stem, '_');
      if SplitOnce(stem, '_') == Some((version, name)) {
        FindsFirst(stem, ['_']);
        OccursOne(stem, '_', |version|);
        assert stem == version + "_" + name;
      }
    }
    if filename == version + "_" + name + ".sql" && '_' !in version {
      NameRoundTrip(Migration(version, name, "", None, true, true));
    }
  }

  /** A file is read as a migration exactly if its name is the version, the first underscore, the name and `.sql`, and
      its two texts and flags are what stands at the first markers. */
  lemma ReadExactly(filename: string, content: string, m: Migration)
    ensures var syntax := Syntax("-- migrate:up", "-- migrate:down", "transaction:false");
            ParseFile(filename, content) == Parsed(m) <==>
              && filename == m.version + "_" + m.name + ".sql" && '_' !in m.version
              && (UpOnly(content, syntax, Body(m)) || UpAndDown(content, syntax, Body(m)))
  {
    NameExactly(filename, m.version, m.name);
    ReadIsMeant(content, Dbmate());
    if UpOnly(content, Dbmate(), Body(m)) {
      UpOnlyIsRead(content, Dbmate(), Body(m));
    } else if UpAndDown(content, Dbmate(), Body(m)) {
      UpAndDownIsRead(content, Dbmate(), Body(m));
    }
  }

  /** It is passed over exactly if the name does not end in `.sql`, has no underscore before that, or no up marker
      occurs. */
  lemma SkippedExactly(filename: string, content: string)
    ensures ParseFile(filename, content).Skipped? <==>
              || (forall stem: string :: filename != stem + ".sql")
              || (forall stem: string :: filename == stem + ".sql" ==> '_' !in stem)
              || !Occurs(content, "-- migrate:up")
  {
    FindExactly(content, Dbmate().up, 0);
    var suffix := StripSuffix(filename, ".sql");
    if suffix.Some? {
      assert filename == suffix.value + ".sql";
      HasSeparator(suffix.value, '_');
    }
    forall stem: string | filename == stem + ".sql" ensures suffix == Some(stem) {
      assert filename[|stem|..] == ".sql" && filename[..|stem|] == stem;
    }
  }
}
