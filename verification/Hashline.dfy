/**
 * The hashline editor of src/hashline-validator.ts: lines are found by the hashes of their contents,
 * and a range of them is replaced in place. An edit is described by the splice it makes of the lines of
 * a file; undoing it, and doing two edits in either order, are statements about splices.
 */
module Hashline {
  import opened Wrappers
  import opened Lines

  /** `contextLines` is any integer: the source does not check it. */
  datatype Edit = Edit(file: string, startHash: string, endHash: string, contextLines: int, replacement: string)

  /** What stands at an existing path; writing to a read-only file throws, like reading an unreadable one. */
  datatype File = Text(content: string, readOnly: bool) | Unreadable

  datatype Validation = Valid(lineStart: nat, lineEnd: nat) | Invalid

  datatype Status = Applied(linesModified: nat) | Rejected | Failed

  datatype Summary = Summary(applied: nat, rejected: nat, errors: nat, totalLinesModified: nat)

  type Files = map<string, File>

  // ---------------------------------------------------------------- anchors

  predicate StartsWith(s: string, prefix: string) { prefix <= s }

  /** Line `i` carries the hash `prefix`, given the 8-character hash of a line. */
  predicate Hit(hash: string -> string, lines: seq<string>, prefix: string, i: nat) {
    i < |lines| && StartsWith(hash(lines[i]), prefix)
  }

  /** A line is hit by its hash and by every beginning of it, and by nothing else. */
  lemma HitIffBeginning(hash: string -> string, lines: seq<string>, prefix: string, i: nat)
    ensures Hit(hash, lines, prefix, i) <==> i < |lines| && exists rest: string :: hash(lines[i]) == prefix + rest
  {
    if Hit(hash, lines, prefix, i) {
      assert hash(lines[i]) == prefix + hash(lines[i])[|prefix|..];
    }
  }

  /** The lines `from` up to `to` carry the anchor's hashes, each at its first place in its search window. */
  ghost predicate Anchored(hash: string -> string, lines: seq<string>, edit: Edit, from: nat, to: nat) {
    && from < to <= |lines|
    && Hit(hash, lines, edit.startHash, from) && (forall i: nat :: i < from ==> !Hit(hash, lines, edit.startHash, i))
    && Hit(hash, lines, edit.endHash, to - 1)
    && (forall i: nat :: from <= i < to - 1 ==> !Hit(hash, lines, edit.endHash, i))
    && to - from <= edit.contextLines + 15
  }

  ghost predicate HasAnchor(hash: string -> string, lines: seq<string>, edit: Edit) {
    exists a: nat, b: nat :: Anchored(hash, lines, edit, a, b)
  }

  /** An anchor names at most one range. */
  lemma AnchorIsUnique(hash: string -> string, lines: seq<string>, edit: Edit, a: nat, b: nat, c: nat, d: nat)
    requires Anchored(hash, lines, edit, a, b) && Anchored(hash, lines, edit, c, d)
    ensures a == c && b == d
  {
    assert !(a < c) && !(c < a);
    assert !(b - 1 < d - 1) && !(d - 1 < b - 1);
  }

  // ---------------------------------------------------------------- splices

  /** Lines `from` up to `to` of a text, replaced by the lines of `replacement`. */
  function Splice(content: string, from: nat, to: nat, replacement: string): string
    requires from <= to <= |Split(content)|
  {
    Join(Split(content)[..from] + Split(replacement) + Split(content)[to..])
  }

  /** The new text has exactly these lines: what was before, the replacement's lines, what was after. */
  lemma SpliceLines(content: string, from: nat, to: nat, replacement: string)
    requires from <= to <= |Split(content)|
    ensures Split(Splice(content, from, to, replacement))
            == Split(content)[..from] + Split(replacement) + Split(content)[to..]
  {
    var lines := Split(content)[..from] + Split(replacement) + Split(content)[to..];
    forall line <- lines ensures NoNewline(line) {
      assert line in Split(content) || line in Split(replacement);
    }
    SplitJoin(lines);
  }

  /** Replacing lines by themselves changes nothing, to the byte. */
  lemma SpliceItself(content: string, from: nat, to: nat)
    requires from < to <= |Split(content)|
    ensures Splice(content, from, to, Join(Split(content)[from..to])) == content
  {
    var lines := Split(content);
    SplitJoin(lines[from..to]);
    assert lines[..from] + lines[from..to] + lines[to..] == lines;
    JoinSplit(content);
  }

  /** Every splice of a non-empty range can be undone by another: put the old lines back where the new ones stand. */
  lemma SpliceUndone(content: string, from: nat, to: nat, replacement: string)
    requires from < to <= |Split(content)|
    ensures var edited := Splice(content, from, to, replacement);
            && from + |Split(replacement)| <= |Split(edited)|
            && Splice(edited, from, from + |Split(replacement)|, Join(Split(content)[from..to])) == content
  {
    var lines, new_ := Split(content), Split(replacement);
    SpliceLines(content, from, to, replacement);
    SplitJoin(lines[from..to]);
    var edited := lines[..from] + new_ + lines[to..];
    assert edited[..from] == lines[..from] && edited[from + |new_|..] == lines[to..];
    assert lines[..from] + lines[from..to] + lines[to..] == lines;
    JoinSplit(content);
  }

  /** Splices of ranges that do not overlap can be made in either order. */
  lemma SplicesCommute(content: string, a: nat, b: nat, c: nat, d: nat, first: string, second: string)
    requires a <= b <= c <= d <= |Split(content)|
    ensures var later := Splice(content, c, d, second);
            var earlier := Splice(content, a, b, first);
            var shift := |Split(first)| - (b - a);
            && b <= |Split(later)| && 0 <= c + shift <= d + shift <= |Split(earlier)|
            && Splice(later, a, b, first) == Splice(earlier, c + shift, d + shift, second)
  {
    hide Split, Join;
    SpliceLines(content, c, d, second);
    SpliceLines(content, a, b, first);
    ReplacementsCommute(Split(content), a, b, c, d, Split(first), Split(second));
  }

  lemma ReplacementsCommute(lines: seq<string>, a: nat, b: nat, c: nat, d: nat, x: seq<string>, y: seq<string>)
    requires a <= b <= c <= d <= |lines|
    ensures var later := lines[..c] + y + lines[d..];
            var earlier := lines[..a] + x + lines[b..];
            var shift := |x| - (b - a);
            later[..a] + x + later[b..] == earlier[..c + shift] + y + earlier[d + shift..]
  {
    var later, earlier := lines[..c] + y + lines[d..], lines[..a] + x + lines[b..];
    var shift := |x| - (b - a);
    assert later[..a] == lines[..a];
    assert later[b..] == lines[b..c] + y + lines[d..];
    assert earlier[..c + shift] == lines[..a] + x + lines[b..c];
    assert earlier[d + shift..] == lines[d..];
  }

  // ---------------------------------------------------------------- the effect of one edit

  function ContentOf(files: Files, file: string): (r: Option<string>) {
    if file in files && files[file].Text? then Some(files[file].content) else None
  }

  /** The files after lines `from` up to `to` of `file` have been replaced; `None` when `applyEdit` throws. */
  function EditFile(files: Files, file: string, from: int, to: int, replacement: string): (r: Option<Files>) {
    var content := ContentOf(files, file);
    if content.None? || from < 0 || to > |Split(content.value)| || from > to || files[file].readOnly then None
    else Some(files[file := Text(Splice(content.value, from, to, replacement), false)])
  }

  /** How an edit ends, and what it makes of the files. */
  ghost predicate Outcome(hash: string -> string, before: Files, edit: Edit, status: Status, after: Files) {
    match status
    case Rejected =>
      && after == before
      && (ContentOf(before, edit.file).None?
          || !HasAnchor(hash, Split(ContentOf(before, edit.file).value), edit))
    case Failed =>
      && after == before
      && ContentOf(before, edit.file).Some? && before[edit.file].readOnly
      && HasAnchor(hash, Split(ContentOf(before, edit.file).value), edit)
    case Applied(n) =>
      exists a: nat, b: nat ::
        && ContentOf(before, edit.file).Some? && Anchored(hash, Split(ContentOf(before, edit.file).value), edit, a, b)
        && EditFile(before, edit.file, a, b, edit.replacement) == Some(after)
        && n == b - a
  }

  /** The outcome of an edit is determined by the files it finds. */
  lemma OutcomeIsUnique(hash: string -> string, before: Files, edit: Edit, s: Status, t: Status, f: Files, g: Files)
    requires Outcome(hash, before, edit, s, f) && Outcome(hash, before, edit, t, g)
    ensures s == t && f == g
  {
    hide Anchored;
    if ContentOf(before, edit.file).Some? {
      var lines := Split(ContentOf(before, edit.file).value);
      if a: nat, b: nat :| Anchored(hash, lines, edit, a, b) {
        forall c: nat, d: nat | Anchored(hash, lines, edit, c, d) ensures a == c && b == d {
          AnchorIsUnique(hash, lines, edit, a, b, c, d);
        }
      }
    }
  }

  /** An applied edit changes one file, by at most the window, and never leaves it with fewer lines than the rest plus one. */
  lemma AppliedEditIsBounded(hash: string -> string, before: Files, edit: Edit, n: nat, after: Files)
    requires Outcome(hash, before, edit, Applied(n), after)
    ensures 0 < n <= edit.contextLines + 15
    ensures after.Keys == before.Keys && forall f <- before :: f != edit.file ==> after[f] == before[f]
    ensures ContentOf(before, edit.file).Some? && ContentOf(after, edit.file).Some?
    ensures |Split(ContentOf(after, edit.file).value)|
            == |Split(ContentOf(before, edit.file).value)| - n + |Split(edit.replacement)|
  {
    var content := ContentOf(before, edit.file).value;
    var a: nat, b: nat :| Anchored(hash, Split(content), edit, a, b)
                          && EditFile(before, edit.file, a, b, edit.replacement) == Some(after) && n == b - a;
    SpliceLines(content, a, b, edit.replacement);
  }

  /** An edit cannot delete lines outright: an empty replacement leaves an empty line in their place. */
  lemma EmptyReplacementLeavesALine(content: string, from: nat, to: nat)
    requires from <= to <= |Split(content)|
    ensures Split(Splice(content, from, to, "")) == Split(content)[..from] + [""] + Split(content)[to..]
  {
    SpliceLines(content, from, to, "");
  }

  // ---------------------------------------------------------------- the editor

  /** `getLineHash`: eight characters of the digest of a line, taken without its newline. */
  function LineHash(sha256: string -> string): string -> string {
    (line: string) =>
      var normalized := if |line| > 0 && line[|line| - 1] == '\n' then line[..|line| - 1] else line;
      var digest := sha256(normalized);
      if |digest| <= 8 then digest else digest[..8]
  }

  /** The hash of a line is the first eight characters of the digest, and the same with and without its newline. */
  lemma LineHashIsShort(sha256: string -> string, line: string)
    requires |sha256(line)| >= 8 && (line != "" ==> line[|line| - 1] != '\n')
    ensures LineHash(sha256)(line) == sha256(line)[..8] && LineHash(sha256)(line + "\n") == LineHash(sha256)(line)
  {
    assert (line + "\n")[..|line|] == line;
  }

  class HashlineValidator {
    const lineHash: string -> string
    var files: Files

    constructor (sha256: string -> string, files: Files)
      ensures lineHash == LineHash(sha256) && this.files == files
    {
      lineHash, this.files := LineHash(sha256), files;
    }

    /** `validateAnchor`: it finds the anchored range exactly when there is one. */
    method ValidateAnchor(edit: Edit) returns (r: Validation)
      ensures r.Valid? <==> ContentOf(files, edit.file).Some?
                            && HasAnchor(lineHash, Split(ContentOf(files, edit.file).value), edit)
      ensures r.Valid? ==> Anchored(lineHash, Split(ContentOf(files, edit.file).value), edit, r.lineStart, r.lineEnd)
    {
      if edit.file !in files || files[edit.file].Unreadable? {
        return Invalid;
      }
      var lines := Split(files[edit.file].content);
      var startLine := -1;
      var i := 0;
      while i < |lines|
        invariant 0 <= i <= |lines| && startLine == -1
        invariant forall j: nat :: j < i ==> !Hit(lineHash, lines, edit.startHash, j)
      {
        if StartsWith(lineHash(lines[i]), edit.startHash) {
          startLine := i;
          break;
        }
        i := i + 1;
      }
      if startLine == -1 {
        return Invalid;
      }
      assert Hit(lineHash, lines, edit.startHash, startLine);
      var searchEnd := if startLine + edit.contextLines + 15 < |lines| then startLine + edit.contextLines + 15 else |lines|;
      var endLine := -1;
      i := startLine;
      while i < searchEnd
        invariant startLine <= i <= |lines| && endLine == -1
        invariant forall j: nat :: startLine <= j < i ==> !Hit(lineHash, lines, edit.endHash, j)
      {
        if StartsWith(lineHash(lines[i]), edit.endHash) {
          endLine := i;
          break;
        }
        i := i + 1;
      }
      if endLine == -1 {
        forall a: nat, b: nat ensures !Anchored(lineHash, lines, edit, a, b) {
          if Hit(lineHash, lines, edit.startHash, a) && forall j: nat :: j < a ==> !Hit(lineHash, lines, edit.startHash, j) {
            assert !(a < startLine) && !(startLine < a);
          }
        }
        return Invalid;
      }
      if endLine < startLine {
        return Invalid;
      }
      assert Anchored(lineHash, lines, edit, startLine, endLine + 1);
      return Valid(startLine, endLine + 1);
    }

    /** `applyEdit`; `ok` is false when it throws. */
    method ApplyEdit(edit: Edit, lineStart: int, lineEnd: int) returns (ok: bool)
      modifies this
      ensures ok == EditFile(old(files), edit.file, lineStart, lineEnd, edit.replacement).Some?
      ensures files == EditFile(old(files), edit.file, lineStart, lineEnd, edit.replacement).GetOr(old(files))
    {
      if edit.file !in files || files[edit.file].Unreadable? {
        return false;
      }
      var lines := Split(files[edit.file].content);
      if lineStart < 0 || lineEnd > |lines| || lineStart > lineEnd {
        return false;
      }
      var newLines := lines[..lineStart] + Split(edit.replacement) + lines[lineEnd..];
      var newContent := Join(newLines);
      if files[edit.file].readOnly {
        return false;
      }
      files := files[edit.file := Text(newContent, false)];
      return true;
    }

    /** The body of the loop of `processEdits`. */
    method ProcessEdit(edit: Edit) returns (status: Status)
      modifies this
      ensures Outcome(lineHash, old(files), edit, status, files)
    {
      hide Anchored, Splice;
      var validation := ValidateAnchor(edit);
      if validation.Invalid? {
        assert Outcome(lineHash, files, edit, Rejected, files);
        return Rejected;
      }
      AnchoredBounds(lineHash, Split(ContentOf(files, edit.file).value), edit, validation.lineStart, validation.lineEnd);
      var ok := ApplyEdit(edit, validation.lineStart, validation.lineEnd);
      if ok {
        status := Applied(validation.lineEnd - validation.lineStart);
      } else {
        status := Failed;
      }
    }

    /** `processEdits`: every edit gets one result, in order, on the files as the edits before it left them. */
    method ProcessEdits(edits: seq<Edit>) returns (results: seq<Status>, summary: Summary, ghost trail: seq<Files>)
      modifies this
      ensures |results| == |edits| && |trail| == |edits| + 1 && trail[0] == old(files) && trail[|edits|] == files
      ensures forall i :: 0 <= i < |edits| ==> Outcome(lineHash, trail[i], edits[i], results[i], trail[i + 1])
      ensures summary == Tally(results)
    {
      results, summary := [], Summary(0, 0, 0, 0);
      trail := [files];
      for i := 0 to |edits|
        invariant |results| == i && |trail| == i + 1 && trail[0] == old(files) && trail[i] == files
        invariant forall k :: 0 <= k < i ==> Outcome(lineHash, trail[k], edits[k], results[k], trail[k + 1])
        invariant summary == Tally(results)
      {
        hide Outcome;
        var status := ProcessEdit(edits[i]);
        TallyOneMore(results, status);
        results := results + [status];
        trail := trail + [files];
        match status {
          case Rejected =>
            summary := summary.(rejected := summary.rejected + 1);
          case Failed =>
            summary := summary.(errors := summary.errors + 1);
          case Applied(n) =>
            summary := summary.(applied := summary.applied + 1, totalLinesModified := summary.totalLinesModified + n);
        }
      }
    }
  }

  lemma AnchoredBounds(hash: string -> string, lines: seq<string>, edit: Edit, a: nat, b: nat)
    requires Anchored(hash, lines, edit, a, b)
    ensures a < b <= |lines|
  {
  }

  // ---------------------------------------------------------------- the summary

  function Tally(results: seq<Status>): Summary {
    if results == [] then Summary(0, 0, 0, 0)
    else
      var s := Tally(results[..|results| - 1]);
      match results[|results| - 1]
      case Rejected => s.(rejected := s.rejected + 1)
      case Failed => s.(errors := s.errors + 1)
      case Applied(n) => s.(applied := s.applied + 1, totalLinesModified := s.totalLinesModified + n)
  }

  lemma TallyOneMore(results: seq<Status>, status: Status)
    ensures var s := Tally(results);
            Tally(results + [status]) == match status
                                         case Rejected => s.(rejected := s.rejected + 1)
                                         case Failed => s.(errors := s.errors + 1)
                                         case Applied(n) => s.(applied := s.applied + 1,
                                                               totalLinesModified := s.totalLinesModified + n)
  {
    assert (results + [status])[..|results|] == results;
  }

  /** Every edit is counted once. */
  lemma {:induction false} TallyAddsUp(results: seq<Status>)
    ensures var s := Tally(results); s.applied + s.rejected + s.errors == |results|
  {
    if results != [] {
      TallyAddsUp(results[..|results| - 1]);
    }
  }
}
