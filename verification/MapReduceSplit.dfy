/** Splitting the input between lines.  A character stands for one byte. */
module MapReduceSplit {
  import opened MapReduceChunks

  // ---- bufio.Scanner with its default split function ----

  function LineEnd(text: string): (e: nat)
    ensures e <= |text|
    ensures e < |text| ==> text[e] == '\n'
    ensures forall i | 0 <= i < e :: text[i] != '\n'
  {
    if text == "" || text[0] == '\n' then 0 else 1 + LineEnd(text[1..])
  }

  function DropCr(line: string): string {
    if line != "" && line[|line| - 1] == '\r' then line[..|line| - 1] else line
  }

  function Lines(text: string): seq<string>
    decreases |text|
  {
    if text == "" then []
    else
      var e := LineEnd(text);
      [DropCr(text[..e])] + (if e < |text| then Lines(text[e + 1..]) else [])
  }

  // ---- the loop of Split ----

  function Concat(files: seq<string>): string {
    if files == [] then "" else Concat(files[..|files| - 1]) + files[|files| - 1]
  }

  /** What is written for `lines`: each gets its newline back. */
  function Written(lines: seq<string>): string {
    if lines == [] then "" else Written(lines[..|lines| - 1]) + lines[|lines| - 1] + "\n"
  }

  /** `i` bytes have been written to `files`; `m` is the number of files. */
  function PutLine(nchunk: nat, files: seq<string>, i: nat, line: string): (r: seq<string>)
    requires files != []
    ensures r != []
  {
    var fs := if i > Capacity(nchunk, |files|) then files + [""] else files;
    fs[|fs| - 1 := fs[|fs| - 1] + (line + "\n")]
  }

  function SplitLines(nchunk: nat, lines: seq<string>): (r: seq<string>)
    ensures r != []
  {
    if lines == [] then [""]
    else
      var init := lines[..|lines| - 1];
      PutLine(nchunk, SplitLines(nchunk, init), |Written(init)|, lines[|lines| - 1])
  }

  function ChunkSize(text: string, nMap: nat): nat
    requires 0 < nMap
  {
    |text| / nMap + 1
  }

  function Split(text: string, nMap: nat): seq<string>
    requires 0 < nMap
  {
    SplitLines(ChunkSize(text, nMap), Lines(text))
  }

  lemma SplitSnoc(nchunk: nat, lines: seq<string>, line: string)
    ensures SplitLines(nchunk, lines + [line]) == PutLine(nchunk, SplitLines(nchunk, lines), |Written(lines)|, line)
    ensures Written(lines + [line]) == Written(lines) + line + "\n"
  {
    assert (lines + [line])[..|lines|] == lines;
  }

  /** The loop over the lines. */
  method RunSplit(text: string, nMap: nat) returns (files: seq<string>)
    requires 0 < nMap
    ensures files == Split(text, nMap)
  {
    var nchunk := |text| / nMap;
    nchunk := nchunk + 1;
    files := [""];
    var m, i, rest := 1, 0, text;
    ghost var done: seq<string> := [];
    ghost var left := Lines(text);
    assert done + left == left;
    while rest != ""
      invariant Lines(text) == done + left && left == Lines(rest)
      invariant files == SplitLines(nchunk, done) && m == |files| && i == |Written(done)|
      decreases |rest|
    {
      var line;
      line, rest := Scan(rest);
      SplitSnoc(nchunk, done, line);
      MoveOver(done, left, line);
      left := left[1..];
      done := done + [line];
      files, m := WriteLine(nchunk, files, m, i, line);
      i := i + |line + "\n"|;
    }
    assert done + left == done;
  }

  lemma MoveOver(done: seq<string>, left: seq<string>, line: string)
    requires left != [] && left[0] == line
    ensures done + left == (done + [line]) + left[1..]
  {
  }

  /** The body of the loop. */
  method WriteLine(nchunk: nat, files: seq<string>, m: nat, i: nat, line: string) returns (r: seq<string>, m': nat)
    requires files != [] && m == |files|
    ensures r == PutLine(nchunk, files, i, line) && m' == |r|
  {
    r, m' := files, m;
    CapacityIsProduct(nchunk, m);
    if i > nchunk * m {
      r := r + [""];
      m' := m + 1;
    }
    r := r[m' - 1 := r[m' - 1] + (line + "\n")];
  }

  lemma LinesCons(text: string)
    requires text != ""
    ensures var e := LineEnd(text);
      Lines(text) == [DropCr(text[..e])] + Lines(if e < |text| then text[e + 1..] else "")
  {
  }

  method Scan(text: string) returns (line: string, rest: string)
    requires text != ""
    ensures Lines(text) == [line] + Lines(rest) && |rest| < |text|
  {
    LinesCons(text);
    var e := LineEnd(text);
    line := DropCr(text[..e]);
    rest := if e < |text| then text[e + 1..] else "";
  }

  lemma {:induction false} LineEndIs(line: string, rest: string)
    requires '\n' !in line && (rest == "" || rest[0] == '\n')
    ensures LineEnd(line + rest) == |line|
    decreases |line|
  {
    if line == "" {
      assert line + rest == rest;
    } else {
      assert (line + rest)[1..] == line[1..] + rest && (line + rest)[0] == line[0] && line[0] in line;
      LineEndIs(line[1..], rest);
    }
  }

  lemma LineThenRest(text: string, line: string, rest: string)
    requires LineEnd(text) == |line| < |text| && text[..|line|] == line && text[|line| + 1..] == rest
    ensures Lines(text) == [DropCr(line)] + Lines(rest)
  {
    LinesCons(text);
  }

  lemma OneLine(line: string, rest: string)
    requires '\n' !in line
    ensures Lines(line + ("\n" + rest)) == [DropCr(line)] + Lines(rest)
  {
    var tail := "\n" + rest;
    LineEndIs(line, tail);
    assert (line + tail)[..|line|] == line;
    assert (line + tail)[|line| + 1..] == tail[1..] == rest;
    LineThenRest(line + tail, line, rest);
  }

  lemma LastLine(line: string)
    requires '\n' !in line && line != ""
    ensures Lines(line) == [DropCr(line)]
  {
    LineEndIs(line, "");
    assert line + "" == line && line[..|line|] == line;
  }

  /** A line ends with the next newline; a carriage return before that is not part of it. */
  lemma LinesMeaning(line: string, rest: string)
    requires '\n' !in line
    ensures line == "" || line[|line| - 1] != '\r' ==> Lines(line + ("\n" + rest)) == [line] + Lines(rest)
    ensures Lines((line + "\r") + ("\n" + rest)) == [line] + Lines(rest)
  {
    OneLine(line, rest);
    OneLine(line + "\r", rest);
  }

  /** The last line needs no newline, and after a newline there is no further line. */
  lemma LastLineMeaning(line: string)
    requires '\n' !in line
    ensures line != "" && line[|line| - 1] != '\r' ==> Lines(line) == [line]
    ensures Lines(line + "\r") == [line] && Lines("") == []
  {
    if line != "" {
      LastLine(line);
    }
    LastLine(line + "\r");
  }

  // ---- nothing is lost, and lines stay whole ----

  lemma {:induction false} ConcatUpdate(files: seq<string>, more: string)
    requires files != []
    ensures Concat(files[|files| - 1 := files[|files| - 1] + more]) == Concat(files) + more
  {
    var fs := files[|files| - 1 := files[|files| - 1] + more];
    assert fs[..|fs| - 1] == files[..|files| - 1];
  }

  /** In order, the split files hold all the lines. */
  lemma {:induction false} SplitConserves(nchunk: nat, lines: seq<string>)
    ensures Concat(SplitLines(nchunk, lines)) == Written(lines)
    decreases |lines|
  {
    if lines != [] {
      var init, line := lines[..|lines| - 1], lines[|lines| - 1];
      SplitConserves(nchunk, init);
      assert init + [line] == lines;
      SplitSnoc(nchunk, init, line);
      PutLineAppends(nchunk, SplitLines(nchunk, init), |Written(init)|, line);
    }
  }

  lemma PutLineAppends(nchunk: nat, files: seq<string>, i: nat, line: string)
    requires files != []
    ensures Concat(PutLine(nchunk, files, i, line)) == Concat(files) + line + "\n"
  {
    var fs := if i > Capacity(nchunk, |files|) then files + [""] else files;
    assert (files + [""])[..|files|] == files;
    assert Concat(fs) == Concat(files);
    ConcatUpdate(fs, line + "\n");
  }

  predicate EndsLine(file: string) {
    file == "" || file[|file| - 1] == '\n'
  }

  lemma {:induction false} SplitKeepsLines(nchunk: nat, lines: seq<string>)
    ensures forall f | f in SplitLines(nchunk, lines) :: EndsLine(f)
    decreases |lines|
  {
    if lines != [] {
      SplitKeepsLines(nchunk, lines[..|lines| - 1]);
    }
  }

  // ---- how many files ----

  lemma {:induction false} LinesWritten(text: string)
    ensures |Written(Lines(text))| <= |text| + 1
    ensures '\r' !in text ==> |text| <= |Written(Lines(text))|
    decreases |text|
  {
    if text != "" {
      var e := LineEnd(text);
      var line := DropCr(text[..e]);
      var rest := if e < |text| then text[e + 1..] else "";
      LinesWritten(rest);
      WrittenCons(line, Lines(rest));
    }
  }

  lemma {:induction false} WrittenCons(line: string, lines: seq<string>)
    ensures Written([line] + lines) == line + "\n" + Written(lines)
    decreases |lines|
  {
    if lines != [] {
      assert ([line] + lines)[..|lines|] == [line] + lines[..|lines| - 1];
      WrittenCons(line, lines[..|lines| - 1]);
    } else {
      assert ([line] + lines)[..0] == [];
    }
  }

  lemma ChunksCover(size: nat, nMap: nat)
    requires 0 < nMap
    ensures size < Capacity(size / nMap + 1, nMap)
  {
    CapacityIsProduct(size / nMap + 1, nMap);
    assert size == size / nMap * nMap + size % nMap;
    assert (size / nMap + 1) * nMap == size / nMap * nMap + nMap;
  }

  /** Where in the output each line begins. */
  function Starts(lines: seq<string>): seq<nat> {
    if lines == [] then []
    else
      var init := lines[..|lines| - 1];
      Starts(init) + [|Written(init)|]
  }

  lemma StartsSnoc(init: seq<string>, line: string)
    ensures Starts(init + [line]) == Starts(init) + [|Written(init)|]
  {
    assert (init + [line])[..|init|] == init;
  }

  lemma {:induction false} StartsLength(lines: seq<string>)
    ensures |Starts(lines)| == |lines|
    decreases |lines|
  {
    if lines != [] {
      StartsLength(lines[..|lines| - 1]);
    }
  }

  /** The number of files depends on where the lines begin, and on nothing else. */
  lemma {:induction false} FilesOpened(nchunk: nat, lines: seq<string>)
    ensures |SplitLines(nchunk, lines)| == Opened(nchunk, Starts(lines))
    decreases |lines|
  {
    if lines != [] {
      var init, line := lines[..|lines| - 1], lines[|lines| - 1];
      assert lines == init + [line];
      FilesOpened(nchunk, init);
      SplitSnoc(nchunk, init, line);
      StartsSnoc(init, line);
      OpenedSnoc(nchunk, Starts(init), |Written(init)|);
    }
  }

  lemma OpenedSnoc(nchunk: nat, starts: seq<nat>, i: nat)
    ensures var m := Opened(nchunk, starts);
      Opened(nchunk, starts + [i]) == if Capacity(nchunk, m) < i then m + 1 else m
  {
    assert (starts + [i])[..|starts|] == starts;
  }

  predicate Ends(starts: seq<nat>, size: nat) {
    starts == [] || starts[|starts| - 1] < size
  }

  lemma AscendingSnoc(starts: seq<nat>, i: nat)
    requires if starts == [] then i == 0 else Ascending(starts) && starts[|starts| - 1] <= i
    ensures Ascending(starts + [i])
  {
  }

  lemma {:induction false} StartsAscend(lines: seq<string>)
    ensures lines != [] ==> Ascending(Starts(lines))
    ensures Ends(Starts(lines), |Written(lines)|)
    decreases |lines|
  {
    if lines != [] {
      var init := lines[..|lines| - 1];
      StartsLength(init);
      StartsAscend(init);
      AscendingSnoc(Starts(init), |Written(init)|);
    }
  }

  /** Never more files than map jobs. */
  lemma AtMostNMap(text: string, nMap: nat)
    requires 0 < nMap
    ensures 1 <= |Split(text, nMap)| <= nMap
  {
    LinesWritten(text);
    ChunksCover(|text|, nMap);
    AtMostFor(ChunkSize(text, nMap), Lines(text), nMap);
  }

  lemma AtMostFor(nchunk: nat, lines: seq<string>, nMap: nat)
    requires 0 < nMap && |Written(lines)| <= Capacity(nchunk, nMap)
    ensures |SplitLines(nchunk, lines)| <= nMap
  {
    FilesOpened(nchunk, lines);
    StartsLength(lines);
    StartsAscend(lines);
    if lines != [] {
      AtMost(nchunk, Starts(lines), nMap);
    }
  }

  lemma AtLeastForIff(nchunk: nat, lines: seq<string>, nMap: nat)
    requires 0 < nMap
    ensures nMap <= |SplitLines(nchunk, lines)| <==> AllLate(nchunk, Starts(lines), nMap)
  {
    FilesOpened(nchunk, lines);
    StartsLength(lines);
    StartsAscend(lines);
    if lines != [] {
      AtLeastIff(nchunk, Starts(lines), nMap);
    } else {
      assert 1 < nMap ==> !Late(nchunk, [], nMap, 0);
    }
  }

  /** For every text there are exactly `nMap` files iff, for each `d` below `nMap - 1`, the line
      `d` before the last exists and begins beyond the first `nMap - 1 - d` chunks. */
  lemma ExactlyNMapIff(text: string, nMap: nat)
    requires 0 < nMap
    ensures |Split(text, nMap)| == nMap <==> AllLate(|text| / nMap + 1, Starts(Lines(text)), nMap)
  {
    AtMostNMap(text, nMap);
    AtLeastForIff(ChunkSize(text, nMap), Lines(text), nMap);
  }

  // ---- short lines ----

  /** No line, with its newline, is longer than `max`. */
  predicate Short(lines: seq<string>, max: nat) {
    forall k | 0 <= k < |lines| :: |lines[k]| + 1 <= max
  }

  function LastStart(lines: seq<string>): nat
    requires lines != []
  {
    |Written(lines[..|lines| - 1])|
  }

  lemma LastOf(lines: seq<string>)
    requires lines != []
    ensures |Starts(lines)| == |lines| && Starts(lines)[|lines| - 1] == LastStart(lines)
    ensures |Written(lines)| == LastStart(lines) + |lines[|lines| - 1]| + 1
  {
    StartsLength(lines);
    StartsLength(lines[..|lines| - 1]);
  }

  lemma {:induction false} StartsClose(lines: seq<string>, max: nat)
    requires Short(lines, max)
    ensures Close(Starts(lines), max)
    decreases |lines|
  {
    if lines != [] {
      var n := |lines| - 1;
      StartsClose(lines[..n], max);
      LastOf(lines);
      StartsLength(lines[..n]);
      if 0 < n {
        LastOf(lines[..n]);
      }
    }
  }

  /** With lines no longer than a chunk the last line decides. */
  lemma ExactlyNMapIfShort(text: string, nMap: nat)
    requires 0 < nMap && Lines(text) != [] && Short(Lines(text), |text| / nMap + 1)
    ensures |Split(text, nMap)| == nMap <==>
      nMap == 1 || Capacity(|text| / nMap + 1, nMap - 1) < LastStart(Lines(text))
  {
    AtMostNMap(text, nMap);
    AtLeastIfShort(ChunkSize(text, nMap), Lines(text), nMap);
  }

  lemma AtLeastIfShort(nchunk: nat, lines: seq<string>, nMap: nat)
    requires 0 < nMap && lines != [] && Short(lines, nchunk)
    ensures nMap <= |SplitLines(nchunk, lines)| <==> nMap == 1 || Capacity(nchunk, nMap - 1) < LastStart(lines)
  {
    FilesOpened(nchunk, lines);
    StartsAscend(lines);
    StartsClose(lines, nchunk);
    LastOf(lines);
    AtLeastIfClose(nchunk, Starts(lines), nMap);
  }

  lemma StartIsLate(start: nat, size: nat, nMap: nat, q: nat, max: nat)
    requires 0 < nMap && nMap + max <= q && q == size / nMap && size <= start + max
    ensures Capacity(q + 1, nMap - 1) < start
  {
    CapacityIsProduct(q + 1, nMap - 1);
    Quotient(size, nMap);
    assert (q + 1) * (nMap - 1) == q * nMap + nMap - q - 1;
  }

  lemma Quotient(size: nat, nMap: nat)
    requires 0 < nMap
    ensures size / nMap * nMap <= size
  {
  }

  lemma ShortLinesFill(lines: seq<string>, size: nat, nMap: nat, q: nat, max: nat)
    requires 0 < nMap && Short(lines, max) && nMap + max <= q && q == size / nMap && size <= |Written(lines)|
    ensures nMap <= |SplitLines(q + 1, lines)|
  {
    Quotient(size, nMap);
    LastOf(lines);
    StartIsLate(LastStart(lines), size, nMap, q, max);
    AtLeastIfShort(q + 1, lines, nMap);
  }

  /** So it is when no line is longer than `max` and a chunk is at least `nMap + max` bytes,
      provided there are no carriage returns to drop. */
  lemma ExactlyNMap(text: string, nMap: nat, max: nat)
    requires 0 < nMap && '\r' !in text && Short(Lines(text), max) && nMap + max <= |text| / nMap
    ensures |Split(text, nMap)| == nMap
  {
    LinesWritten(text);
    AtMostNMap(text, nMap);
    ShortLinesFill(Lines(text), |text|, nMap, |text| / nMap, max);
  }

  // ---- carriage returns ----

  /** `n` empty lines, ended as on Windows. */
  function CrLfs(n: nat): string {
    seq(2 * n, i => if i % 2 == 0 then '\r' else '\n')
  }

  predicate AllEmpty(lines: seq<string>, n: nat) {
    |lines| == n && forall k | 0 <= k < n :: lines[k] == ""
  }

  lemma {:induction false} CrLfLines(n: nat)
    ensures |CrLfs(n)| == 2 * n && AllEmpty(Lines(CrLfs(n)), n)
  {
    if n > 0 {
      CrLfLines(n - 1);
      assert CrLfs(n) == "\r\n" + CrLfs(n - 1);
      OneMoreCrLf(CrLfs(n - 1), n - 1);
    }
  }

  lemma OneMoreCrLf(rest: string, n: nat)
    requires AllEmpty(Lines(rest), n)
    ensures AllEmpty(Lines("\r\n" + rest), n + 1)
  {
    CrLf(rest);
  }

  /** With carriage returns the lines written are too few: however long this text, it is
      never split in two. */
  lemma CarriageReturnsFallShort(n: nat)
    requires 3 <= n
    ensures Short(Lines(CrLfs(n)), 1) && 2 + 1 <= |CrLfs(n)| / 2 && |Split(CrLfs(n), 2)| == 1
  {
    CrLfLines(n);
    OneFile(CrLfs(n), n);
  }

  lemma OneFile(text: string, n: nat)
    requires 0 < n && |text| == 2 * n && AllEmpty(Lines(text), n)
    ensures |Split(text, 2)| == 1 && Short(Lines(text), 1)
  {
    EmptyStart(Lines(text), n);
    AtMostNMap(text, 2);
    ExactlyNMapIfShort(text, 2);
  }

  lemma EmptyStart(lines: seq<string>, n: nat)
    requires 0 < n && AllEmpty(lines, n)
    ensures LastStart(lines) == n - 1 && Short(lines, 1)
  {
    EmptyLines(lines[..n - 1]);
  }

  lemma {:induction false} EmptyLines(lines: seq<string>)
    requires forall k | 0 <= k < |lines| :: lines[k] == ""
    ensures |Written(lines)| == |lines|
    decreases |lines|
  {
    if lines != [] {
      EmptyLines(lines[..|lines| - 1]);
    }
  }

  lemma CrLf(rest: string)
    ensures Lines("\r\n" + rest) == [""] + Lines(rest)
  {
    var text := "\r\n" + rest;
    assert text[1..][0] == '\n' && LineEnd(text[1..]) == 0;
    assert LineEnd(text) == 1;
    assert text[2..] == rest;
  }
}
