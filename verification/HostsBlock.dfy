/** The block of pinned hosts in a guest's `/etc/hosts`: removed by a `sed` range, appended by a
    `printf`. A file is its newline-terminated lines and whatever follows the last newline. */
module HostsBlock {

  const PIN_BEGIN := "# BEGIN sandboxsh allowlist"
  const PIN_END := "# END sandboxsh allowlist"

  datatype File = File(lines: seq<string>, tail: string)

  predicate At(line: string, k: nat, marker: string) {
    k + |marker| <= |line| && line[k..k + |marker|] == marker
  }

  /** The `sed` address matches anywhere in the line. */
  ghost predicate Mentions(line: string, marker: string) {
    exists k :: At(line, k, marker)
  }

  method Find(line: string, marker: string) returns (found: bool)
    ensures found <==> Mentions(line, marker)
  {
    var k := 0;
    while k + |marker| <= |line|
      invariant 0 <= k
      invariant forall j :: 0 <= j < k ==> !At(line, j, marker)
    {
      if At(line, k, marker) {
        return true;
      }
      k := k + 1;
    }
    return false;
  }

  /** Whether the range is open after these lines. The closing address is not tried on the line
      that opened the range. */
  ghost function OpenAfter(lines: seq<string>): bool {
    if lines == [] then false
    else
      var before, line := OpenAfter(lines[..|lines| - 1]), lines[|lines| - 1];
      if before then !Mentions(line, PIN_END) else Mentions(line, PIN_BEGIN)
  }

  /** The lines outside every range. */
  ghost function Outside(lines: seq<string>): seq<string> {
    if lines == [] then []
    else
      var rest, line := lines[..|lines| - 1], lines[|lines| - 1];
      Outside(rest) + if OpenAfter(rest) || Mentions(line, PIN_BEGIN) then [] else [line]
  }

  /** `sed -i '/BEGIN/,/END/d'`: an unterminated last line is a line too. */
  ghost function Unpinned(file: File): File {
    File(Outside(file.lines),
         if file.tail == "" || OpenAfter(file.lines) || Mentions(file.tail, PIN_BEGIN) then "" else file.tail)
  }

  method Unpin(file: File) returns (r: File)
    ensures r == Unpinned(file)
  {
    var kept: seq<string> := [];
    var open := false;
    for i := 0 to |file.lines|
      invariant kept == Outside(file.lines[..i]) && open == OpenAfter(file.lines[..i])
    {
      var line := file.lines[i];
      assert file.lines[..i + 1][..i] == file.lines[..i];
      var begins := Find(line, PIN_BEGIN);
      var ends := Find(line, PIN_END);
      if open {
        open := !ends;
      } else if begins {
        open := true;
      } else {
        kept := kept + [line];
      }
    }
    assert file.lines[..|file.lines|] == file.lines;
    var begins := Find(file.tail, PIN_BEGIN);
    r := File(kept, if file.tail == "" || open || begins then "" else file.tail);
  }

  /** `printf '%s' text >> file` for newline-terminated text: the first line joins an unfinished one. */
  function Append(file: File, lines: seq<string>): File {
    if lines == [] then file
    else if file.tail == "" then File(file.lines + lines, "")
    else File(file.lines + [file.tail + lines[0]] + lines[1..], "")
  }

  function Block(entries: seq<string>): seq<string> {
    [PIN_BEGIN] + entries + [PIN_END]
  }

  ghost function Pinned(file: File, entries: seq<string>): File {
    Append(Unpinned(file), Block(entries))
  }

  method Pin(file: File, entries: seq<string>) returns (r: File)
    ensures r == Pinned(file, entries)
  {
    var cleared := Unpin(file);
    r := Append(cleared, Block(entries));
  }

  /** What a pinned file holds: the lines that were outside every block, with an unfinished last one run
      into the opening marker, then every entry on a line of its own between the markers. */
  lemma PinnedHolds(file: File, entries: seq<string>)
    ensures Pinned(file, entries)
            == File(Unpinned(file).lines + [Unpinned(file).tail + "# BEGIN sandboxsh allowlist"] + entries
                    + ["# END sandboxsh allowlist"], "")
  {
    var cleared := Unpinned(file);
    assert Block(entries)[0] == PIN_BEGIN && Block(entries)[1..] == entries + [PIN_END];
    assert "" + PIN_BEGIN == PIN_BEGIN;
  }

  /** A file that mentions no opening marker is left alone. */
  lemma CleanFileKept(file: File)
    requires NoneMention(file.lines, PIN_BEGIN) && !Mentions(file.tail, PIN_BEGIN)
    ensures Unpinned(file) == file
  {
    PassThrough([], file.lines);
    assert [] + file.lines == file.lines;
  }

  ghost predicate NoneMention(lines: seq<string>, marker: string) {
    forall i :: 0 <= i < |lines| ==> !Mentions(lines[i], marker)
  }

  lemma OutsideNext(lines: seq<string>, line: string)
    ensures OpenAfter(lines + [line])
            == if OpenAfter(lines) then !Mentions(line, PIN_END) else Mentions(line, PIN_BEGIN)
    ensures Outside(lines + [line])
            == Outside(lines) + if OpenAfter(lines) || Mentions(line, PIN_BEGIN) then [] else [line]
  {
    assert (lines + [line])[..|lines|] == lines;
  }

  /** Lines that open no range pass through unchanged. */
  lemma {:induction false} PassThrough(before: seq<string>, lines: seq<string>)
    requires !OpenAfter(before) && NoneMention(lines, PIN_BEGIN)
    ensures Outside(before + lines) == Outside(before) + lines && !OpenAfter(before + lines)
  {
    hide Outside, OpenAfter, Mentions;
    if lines == [] {
      assert before + lines == before;
    } else {
      var rest, line := lines[..|lines| - 1], lines[|lines| - 1];
      PassThrough(before, rest);
      OutsideNext(before + rest, line);
      assert before + lines == before + rest + [line];
      assert lines == rest + [line];
    }
  }

  /** Lines that close no range disappear into an open one. */
  lemma {:induction false} Swallowed(before: seq<string>, lines: seq<string>)
    requires OpenAfter(before) && NoneMention(lines, PIN_END)
    ensures Outside(before + lines) == Outside(before) && OpenAfter(before + lines)
  {
    hide Outside, OpenAfter, Mentions;
    if lines == [] {
      assert before + lines == before;
    } else {
      var rest, line := lines[..|lines| - 1], lines[|lines| - 1];
      Swallowed(before, rest);
      OutsideNext(before + rest, line);
      assert before + lines == before + rest + [line];
    }
  }

  lemma {:induction false} OutsideHasNoBegin(lines: seq<string>)
    ensures NoneMention(Outside(lines), PIN_BEGIN)
  {
    if lines != [] {
      OutsideHasNoBegin(lines[..|lines| - 1]);
    }
  }

  lemma MarkersMentioned(before: string)
    ensures Mentions(before + PIN_BEGIN, PIN_BEGIN) && Mentions(PIN_END, PIN_END)
  {
    assert At(before + PIN_BEGIN, |before|, PIN_BEGIN);
    assert At(PIN_END, 0, PIN_END);
  }

  /** A block after clean lines, opened on the line `opening`, disappears with its markers. */
  lemma BlockDisappears(clean: seq<string>, opening: string, entries: seq<string>)
    requires NoneMention(clean, PIN_BEGIN) && Mentions(opening, PIN_BEGIN) && NoneMention(entries, PIN_END)
    ensures Outside(clean + [opening] + entries + [PIN_END]) == clean
    ensures !OpenAfter(clean + [opening] + entries + [PIN_END])
  {
    MarkersMentioned("");
    PassThrough([], clean);
    assert [] + clean == clean;
    OutsideNext(clean, opening);
    Swallowed(clean + [opening], entries);
    OutsideNext(clean + [opening] + entries, PIN_END);
  }

  /** What removing the block gives back from a pinned file, with lines written after the block. */
  lemma UnpinAfterPin(file: File, entries: seq<string>, later: seq<string>)
    requires NoneMention(entries, PIN_END) && NoneMention(later, PIN_BEGIN)
    ensures Unpinned(Append(Pinned(file, entries), later)) == File(Unpinned(file).lines + later, "")
  {
    var cleared := Unpinned(file);
    OutsideHasNoBegin(file.lines);
    MarkersMentioned(cleared.tail);
    var opening := cleared.tail + PIN_BEGIN;
    var lines := cleared.lines + [opening] + entries + [PIN_END];
    assert Pinned(file, entries).lines == lines by {
      assert Block(entries)[0] == PIN_BEGIN;
      assert Block(entries)[1..] == entries + [PIN_END];
      assert "" + PIN_BEGIN == PIN_BEGIN;
    }
    BlockDisappears(cleared.lines, opening, entries);
    PassThrough(lines, later);
    assert Append(Pinned(file, entries), later).lines == lines + later;
  }

  /** Unpinning after pinning gives back the file without its old block, plus whatever a stage
      appended after the block, exactly when that file ended in a newline; otherwise its last
      line is lost with the block. An unclosed block in the original makes no difference. */
  lemma PinRoundTrip(file: File, entries: seq<string>, later: seq<string>)
    requires NoneMention(entries, PIN_END) && NoneMention(later, PIN_BEGIN)
    ensures Unpinned(Append(Pinned(file, entries), later)) == Append(Unpinned(file), later)
            <==> Unpinned(file).tail == ""
  {
    UnpinAfterPin(file, entries, later);
    var cleared := Unpinned(file);
    if cleared.tail != "" && later != [] {
      assert |Append(cleared, later).lines| == |cleared.lines| + |later|;
      assert Append(cleared, later).lines[|cleared.lines|] == cleared.tail + later[0];
      assert (cleared.lines + later)[|cleared.lines|] == later[0];
      assert |cleared.tail + later[0]| > |later[0]|;
    }
  }

  /** Pinning again replaces the earlier block. */
  lemma PinReplaces(file: File, first: seq<string>, second: seq<string>)
    requires NoneMention(first, PIN_END)
    ensures Pinned(Pinned(file, first), second) == Pinned(file, second) <==> Unpinned(file).tail == ""
  {
    UnpinAfterPin(file, first, []);
    assert Unpinned(file).lines + [] == Unpinned(file).lines;
    assert Append(Pinned(file, first), []) == Pinned(file, first);
    var cleared := Unpinned(file);
    if cleared.tail != "" {
      var a, b := Pinned(Pinned(file, first), second), Pinned(file, second);
      assert a.lines[|cleared.lines|] == PIN_BEGIN;
      assert b.lines[|cleared.lines|] == cleared.tail + PIN_BEGIN;
      assert |cleared.tail + PIN_BEGIN| > |PIN_BEGIN|;
    }
  }
}
