// The copy list and size computation of make-efi
// (go/src/make-efi/make-efi.go): the destination-to-source map assembled
// from the -kernel, -ramdisk and -efi-bootloader flags and a `dst=src`
// manifest, the manifest reader that yields one entry per call, and the
// partition size computed from the sizes of the source files.
//
// The file system is a parameter: a manifest is its text, and the sizes
// os.Stat would report are a map from path to size. A fatal log.Fatal is
// the `None` result. Go strings are sequences of chars here.

module MakeEfi {
  import opened Base

  // ---------------------------------------------------------------------
  // Strings

  /** unicode.IsSpace, the whitespace strings.TrimSpace removes. */
  predicate IsSpace(c: char)
  {
    c == ' ' || c == '\t' || c == '\n' || c == '\r' || c == '\U{000B}' || c == '\U{000C}' ||
    c == '\U{0085}' || c == '\U{00A0}' || c == '\U{1680}' || ('\U{2000}' <= c <= '\U{200A}') ||
    c == '\U{2028}' || c == '\U{2029}' || c == '\U{202F}' || c == '\U{205F}' || c == '\U{3000}'
  }

  /** Leading whitespace removed. */
  function TrimLeft(s: string): string
  {
    if |s| > 0 && IsSpace(s[0]) then TrimLeft(s[1..]) else s
  }

  /** Trailing whitespace removed. */
  function TrimRight(s: string): string
  {
    if |s| > 0 && IsSpace(s[|s| - 1]) then TrimRight(s[..|s| - 1]) else s
  }

  /** strings.TrimSpace. */
  function TrimSpace(s: string): string
  {
    TrimRight(TrimLeft(s))
  }

  /** TrimLeft keeps the longest suffix that does not start with whitespace. */
  lemma {:induction false} TrimLeftFacts(s: string)
    ensures var r := TrimLeft(s);
      |r| <= |s| && r == s[|s| - |r|..] &&
      (forall k :: 0 <= k < |s| - |r| ==> IsSpace(s[k])) &&
      (|r| > 0 ==> !IsSpace(r[0]))
  {
    if |s| > 0 && IsSpace(s[0]) {
      TrimLeftFacts(s[1..]);
    }
  }

  /** TrimRight keeps the longest prefix that does not end with whitespace. */
  lemma {:induction false} TrimRightFacts(s: string)
    ensures var r := TrimRight(s);
      |r| <= |s| && r == s[..|r|] &&
      (forall k :: |r| <= k < |s| ==> IsSpace(s[k])) &&
      (|r| > 0 ==> !IsSpace(r[|r| - 1]))
  {
    if |s| > 0 && IsSpace(s[|s| - 1]) {
      TrimRightFacts(s[..|s| - 1]);
    }
  }

  /**
   * TrimSpace keeps a contiguous slice of its input, drops only whitespace
   * around it, and leaves no whitespace at either end.
   */
  lemma TrimSpaceFacts(s: string)
    ensures var r, i := TrimSpace(s), |s| - |TrimLeft(s)|;
      0 <= i <= i + |r| <= |s| && r == s[i..i + |r|] &&
      (forall k :: 0 <= k < i ==> IsSpace(s[k])) &&
      (forall k :: i + |r| <= k < |s| ==> IsSpace(s[k]))
    ensures var r := TrimSpace(s); |r| > 0 ==> !IsSpace(r[0]) && !IsSpace(r[|r| - 1])
  {
    var l := TrimLeft(s);
    TrimLeftFacts(s);
    TrimRightFacts(l);
    var r := TrimRight(l);
    var i := |s| - |l|;
    assert r == l[..|r|];
    assert forall k :: i + |r| <= k < |s| ==> s[k] == l[k - i];
  }

  /** A trailing newline, whitespace itself, makes no difference to TrimSpace. */
  lemma TrimSpaceNewline(s: string)
    ensures TrimSpace(s + "\n") == TrimSpace(s)
  {
    TrimLeftAppend(s, '\n');
    var l := TrimLeft(s);
    if |l| > 0 {
      assert (l + "\n")[..|l|] == l;
    }
  }

  /** Appending a space to a string either trims away with it or stays after the rest. */
  lemma {:induction false} TrimLeftAppend(s: string, c: char)
    requires IsSpace(c)
    ensures TrimLeft(s + [c]) == if |TrimLeft(s)| == 0 then [] else TrimLeft(s) + [c]
  {
    if |s| > 0 && IsSpace(s[0]) {
      assert (s + [c])[1..] == s[1..] + [c];
      TrimLeftAppend(s[1..], c);
    } else if |s| == 0 {
      assert TrimLeft([c]) == TrimLeft([c][1..]);
    }
  }

  /** A string without whitespace at either end is its own TrimSpace. */
  lemma NoSpaceAtEnds(s: string)
    requires |s| > 0 && !IsSpace(s[0]) && !IsSpace(s[|s| - 1])
    ensures TrimSpace(s) == s
  {
    assert TrimLeft(s) == s;
  }

  /** strings.HasPrefix. */
  predicate HasPrefix(s: string, prefix: string)
  {
    |prefix| <= |s| && s[..|prefix|] == prefix
  }

  /** The index of the first `c` in `s`, or |s| when there is none. */
  function IndexOf(s: string, c: char): (k: nat)
    ensures k <= |s|
    ensures forall j :: 0 <= j < k ==> s[j] != c
    ensures k < |s| ==> s[k] == c
    ensures k == |s| <==> c !in s
  {
    if |s| == 0 then 0 else if s[0] == c then 0 else 1 + IndexOf(s[1..], c)
  }

  /** strings.SplitN(s, sep, 2) for a one-character separator: split at the first separator. */
  function SplitN2(s: string, sep: char): (parts: seq<string>)
    ensures |parts| == 1 || |parts| == 2
    ensures |parts| == 2 <==> sep in s
    ensures |parts| == 1 ==> parts[0] == s
    ensures |parts| == 2 ==> parts[0] + [sep] + parts[1] == s && sep !in parts[0]
  {
    var k := IndexOf(s, sep);
    if k == |s| then [s]
    else
      assert s[..k] + [sep] + s[k + 1..] == s;
      [s[..k], s[k + 1..]]
  }

  /**
   * filepath.Join of a directory and a relative path: the elements joined
   * by a slash, empty elements ignored. filepath.Clean, which Join applies
   * to the result, is not part of this model.
   */
  function JoinPath(dir: string, rel: string): (r: string)
    ensures dir != "" && rel != "" ==> r == dir + "/" + rel
    ensures rel == "" ==> r == dir
    ensures dir == "" ==> r == rel
  {
    if rel == "" then dir else if dir == "" then rel else dir + "/" + rel
  }

  // ---------------------------------------------------------------------
  // Reading the manifest

  /** What bufio's ReadString('\n') returns and the input it leaves. */
  datatype ReadResult = ReadResult(line: string, rest: string, eof: bool)

  /**
   * ReadString('\n'): everything up to and including the first newline;
   * without one, the rest of the input and io.EOF.
   */
  function ReadLine(input: string): (r: ReadResult)
    ensures r.line + r.rest == input
    ensures r.eof <==> '\n' !in input
    ensures r.eof ==> r.rest == [] && r.line == input
    ensures !r.eof ==> |r.line| > 0 && r.line[|r.line| - 1] == '\n' && '\n' !in r.line[..|r.line| - 1]
  {
    var k := IndexOf(input, '\n');
    if k == |input| then ReadResult(input, [], true)
    else
      assert input[..k + 1] + input[k + 1..] == input;
      assert input[..k + 1][..k] == input[..k];
      ReadResult(input[..k + 1], input[k + 1..], false)
  }

  /** A line ending in a newline reads as itself, leaving what follows. */
  lemma ReadLineOf(line: string, more: string)
    requires '\n' !in line
    ensures ReadLine(line + "\n" + more) == ReadResult(line + "\n", more, false)
  {
    var input := line + "\n" + more;
    assert input[|line|] == '\n';
    assert forall j :: 0 <= j < |line| ==> input[j] == line[j];
    var k := IndexOf(input, '\n');
    assert k == |line|;
    assert input[..k + 1] == line + "\n";
    assert input[k + 1..] == more;
  }

  /** The last line, without a newline, reads with io.EOF. */
  lemma ReadLastLine(line: string)
    requires '\n' !in line
    ensures ReadLine(line) == ReadResult(line, [], true)
  {
  }

  /** A manifest line Next passes over: a comment, or one without '='. */
  predicate Skipped(trimmed: string)
  {
    HasPrefix(trimmed, "#") || '=' !in trimmed
  }

  /** What one call of Next returns, and the input it leaves. */
  datatype NextResult = NextResult(dst: string, src: string, eof: bool, rest: string)

  /**
   * Next: read lines until one is neither a comment nor lacks '='; return
   * its destination and its source joined to the manifest directory,
   * together with the read's io.EOF; at the end of the input return two
   * empty strings and io.EOF.
   */
  function NextOf(input: string, manifestRoot: string): (n: NextResult)
    ensures n.eof ==> n.rest == []
    ensures !n.eof ==> |n.rest| < |input|
    decreases |input|
  {
    var r := ReadLine(input);
    match ParseLine(r.line, manifestRoot)
    case None => if r.eof then NextResult("", "", true, []) else NextOf(r.rest, manifestRoot)
    case Some(entry) => NextResult(entry.0, entry.1, r.eof, r.rest)
  }

  /**
   * What Next makes of one line: nothing for a comment or a line without
   * '=', otherwise the text before the first '=' and the text after it
   * joined to the manifest directory.
   */
  function ParseLine(line: string, manifestRoot: string): Option<(string, string)>
  {
    var t := TrimSpace(line);
    if Skipped(t) then None
    else
      var parts := SplitN2(t, '=');
      Some((parts[0], JoinPath(manifestRoot, parts[1])))
  }

  /** An exhausted manifest reads "" with io.EOF, a line Next passes over. */
  lemma EmptyInput(manifestRoot: string)
    ensures ReadLine("") == ReadResult("", "", true)
    ensures ParseLine("", manifestRoot) == None
  {
    assert TrimSpace("") == "";
  }

  /** An exhausted manifest yields two empty strings and io.EOF. */
  lemma NextAtEof(manifestRoot: string)
    ensures NextOf("", manifestRoot) == NextResult("", "", true, "")
  {
    EmptyInput(manifestRoot);
  }

  /** Comment lines and lines without '=' are passed over. */
  lemma NextSkipsLine(line: string, more: string, manifestRoot: string)
    requires '\n' !in line && Skipped(TrimSpace(line))
    ensures NextOf(line + "\n" + more, manifestRoot) == NextOf(more, manifestRoot)
  {
    ReadLineOf(line, more);
    TrimSpaceNewline(line);
  }

  /**
   * A `dst=src` line yields the text before its first '=' as destination
   * and the text after it, joined to the manifest directory, as source.
   */
  lemma NextReadsEntry(line: string, more: string, manifestRoot: string)
    requires '\n' !in line && !Skipped(TrimSpace(line))
    ensures var parts := SplitN2(TrimSpace(line), '=');
      NextOf(line + "\n" + more, manifestRoot) == NextResult(parts[0], JoinPath(manifestRoot, parts[1]), false, more)
  {
    ReadLineOf(line, more);
    TrimSpaceNewline(line);
  }

  /** The entries successive calls of Next return, up to and including the one with io.EOF. */
  function Entries(input: string, manifestRoot: string): (es: seq<NextResult>)
    ensures |es| > 0 && es[|es| - 1].eof
    decreases |input|
  {
    var n := NextOf(input, manifestRoot);
    if n.eof then [n] else [n] + Entries(n.rest, manifestRoot)
  }

  /** The manifest reader: the unread part of the manifest and the manifest's directory. */
  class ManifestReader {
    var rest: string
    const manifestRoot: string

    /** newManifestReader, with the file's text and filepath.Dir of its path given. */
    constructor (contents: string, manifestRoot: string)
      ensures rest == contents && this.manifestRoot == manifestRoot
    {
      rest := contents;
      this.manifestRoot := manifestRoot;
    }

    /** Next, with the read error assigned to the loop's err (see NextAsWrittenSpins for the code as written). */
    method Next() returns (dst: string, src: string, eof: bool)
      modifies this
      ensures NextResult(dst, src, eof, rest) == NextOf(old(rest), manifestRoot)
    {
      eof := false;
      while !eof
        invariant !eof ==> NextOf(rest, manifestRoot) == NextOf(old(rest), manifestRoot)
        invariant eof ==> rest == [] && NextOf(old(rest), manifestRoot) == NextResult("", "", true, [])
        decreases |rest| + (if eof then 0 else 1)
      {
        var r := ReadLine(rest);
        var line := TrimSpace(r.line);
        rest, eof := r.rest, r.eof;
        if HasPrefix(line, "#") {
          continue;
        }
        var parts := SplitN2(line, '=');
        if |parts| != 2 {
          continue;
        }
        return parts[0], JoinPath(manifestRoot, parts[1]), eof;
      }
      return "", "", eof;
    }
  }

  // ---------------------------------------------------------------------
  // Next as written

  /**
   * One pass of Next's loop as written: `line, err :=` declares a new err
   * inside the loop, so the err the loop tests stays nil and a skipped line
   * always goes round again, even after io.EOF.
   */
  datatype Step = Continue(rest: string) | Return(result: NextResult)

  function NextStepAsWritten(input: string, manifestRoot: string): Step
  {
    var r := ReadLine(input);
    match ParseLine(r.line, manifestRoot)
    case None => Continue(r.rest)
    case Some(entry) => Return(NextResult(entry.0, entry.1, r.eof, r.rest))
  }

  /** At most `passes` passes of the loop as written: None if it has not returned by then. */
  function NextAsWritten(input: string, manifestRoot: string, passes: nat): Option<NextResult>
    decreases passes
  {
    if passes == 0 then None
    else match NextStepAsWritten(input, manifestRoot)
      case Continue(rest) => NextAsWritten(rest, manifestRoot, passes - 1)
      case Return(result) => Some(result)
  }

  /**
   * The code as written never returns on an exhausted manifest: whatever
   * the number of passes, ReadString yields "" with io.EOF, the empty line
   * has no '=', and the loop goes round again. A manifest ending in a
   * newline exhausts the reader after its last entry, so the caller's next
   * call never comes back.
   */
  lemma {:induction false} NextAsWrittenSpins(manifestRoot: string, passes: nat)
    ensures NextAsWritten("", manifestRoot, passes) == None
  {
    EmptyInput(manifestRoot);
    if passes > 0 {
      NextAsWrittenSpins(manifestRoot, passes - 1);
    }
  }

  /** After a manifest's last line, ended by a newline, the reader is exhausted. */
  lemma LastLineExhausts(line: string, manifestRoot: string)
    requires '\n' !in line
    ensures NextOf(line + "\n", manifestRoot).rest == ""
  {
    ReadLineOf(line, "");
    assert line + "\n" + "" == line + "\n";
    EmptyInput(manifestRoot);
  }

  /**
   * The case of any manifest whose last line ends in a newline, "a=b\n"
   * say: that line leaves the reader exhausted; the corrected Next then
   * reports io.EOF, which ends the caller's loop, while Next as written
   * never returns.
   */
  lemma NextAsWrittenHangsAfterLastLine(line: string, manifestRoot: string, passes: nat)
    requires '\n' !in line
    ensures NextOf(line + "\n", manifestRoot).rest == ""
    ensures NextOf("", manifestRoot) == NextResult("", "", true, "")
    ensures NextAsWritten("", manifestRoot, passes) == None
  {
    LastLineExhausts(line, manifestRoot);
    NextAtEof(manifestRoot);
    NextAsWrittenSpins(manifestRoot, passes);
  }

  // ---------------------------------------------------------------------
  // The copy list

  /** Whether main records a manifest entry: both names non-empty. */
  predicate Recorded(e: NextResult)
  {
    e.dst != "" && e.src != ""
  }

  /** The copies named by the flags, each under its fixed destination when given. */
  function FlagCopies(kernel: string, ramdisk: string, efiBootloader: string): (m: map<string, string>)
    ensures "zircon.bin" in m <==> kernel != ""
    ensures "ramdisk.bin" in m <==> ramdisk != ""
    ensures "BOOT/EFI/BOOTX64.EFI" in m <==> efiBootloader != ""
    ensures m.Keys <= {"zircon.bin", "ramdisk.bin", "BOOT/EFI/BOOTX64.EFI"}
    ensures "zircon.bin" in m ==> m["zircon.bin"] == kernel
    ensures "ramdisk.bin" in m ==> m["ramdisk.bin"] == ramdisk
    ensures "BOOT/EFI/BOOTX64.EFI" in m ==> m["BOOT/EFI/BOOTX64.EFI"] == efiBootloader
  {
    var m0: map<string, string> := map[];
    var m1 := if kernel != "" then m0["zircon.bin" := kernel] else m0;
    var m2 := if ramdisk != "" then m1["ramdisk.bin" := ramdisk] else m1;
    if efiBootloader != "" then m2["BOOT/EFI/BOOTX64.EFI" := efiBootloader] else m2
  }

  /** The copy map after the manifest entries, each recorded one written over what was there. */
  function Record(m: map<string, string>, es: seq<NextResult>): map<string, string>
    decreases |es|
  {
    if |es| == 0 then m
    else Record(if Recorded(es[0]) then m[es[0].dst := es[0].src] else m, es[1..])
  }

  /**
   * The last recorded entry for a destination wins, over earlier entries
   * and over the flags.
   */
  lemma {:induction false} LastEntryWins(m: map<string, string>, es: seq<NextResult>, j: nat)
    requires j < |es| && Recorded(es[j])
    requires forall k :: j < k < |es| && Recorded(es[k]) ==> es[k].dst != es[j].dst
    ensures es[j].dst in Record(m, es) && Record(m, es)[es[j].dst] == es[j].src
    decreases |es|
  {
    var m' := if Recorded(es[0]) then m[es[0].dst := es[0].src] else m;
    if j == 0 {
      RecordKeeps(m', es[1..], es[0].dst);
    } else {
      LastEntryWins(m', es[1..], j - 1);
    }
  }

  /** A destination no recorded entry names keeps its copy, or its absence. */
  lemma {:induction false} RecordKeeps(m: map<string, string>, es: seq<NextResult>, dst: string)
    requires forall k :: 0 <= k < |es| && Recorded(es[k]) ==> es[k].dst != dst
    ensures dst in Record(m, es) <==> dst in m
    ensures dst in m ==> Record(m, es)[dst] == m[dst]
    decreases |es|
  {
    if |es| > 0 {
      var m' := if Recorded(es[0]) then m[es[0].dst := es[0].src] else m;
      RecordKeeps(m', es[1..], dst);
    }
  }

  /** Recording the entries of a manifest is recording what Next returns, then the entries after it. */
  lemma RecordNext(m: map<string, string>, input: string, manifestRoot: string)
    ensures var n := NextOf(input, manifestRoot);
      var m' := if Recorded(n) then m[n.dst := n.src] else m;
      Record(m, Entries(input, manifestRoot)) == if n.eof then m' else Record(m', Entries(n.rest, manifestRoot))
  {
    var n := NextOf(input, manifestRoot);
    var es := Entries(input, manifestRoot);
    assert es[0] == n;
    assert es[1..] == if n.eof then [] else Entries(n.rest, manifestRoot);
  }

  /**
   * The copy list of main: the flag copies, then every manifest entry
   * Next returns, until io.EOF.
   */
  method CollectCopies(kernel: string, ramdisk: string, efiBootloader: string, reader: ManifestReader?)
    returns (dstSrc: map<string, string>)
    modifies reader
    ensures reader == null ==> dstSrc == FlagCopies(kernel, ramdisk, efiBootloader)
    ensures reader != null ==>
      dstSrc == Record(FlagCopies(kernel, ramdisk, efiBootloader), Entries(old(reader.rest), reader.manifestRoot)) &&
      reader.rest == []
  {
    dstSrc := map[];
    if kernel != "" {
      dstSrc := dstSrc["zircon.bin" := kernel];
    }
    if ramdisk != "" {
      dstSrc := dstSrc["ramdisk.bin" := ramdisk];
    }
    if efiBootloader != "" {
      dstSrc := dstSrc["BOOT/EFI/BOOTX64.EFI" := efiBootloader];
    }
    if reader != null {
      ghost var target := Record(dstSrc, Entries(reader.rest, reader.manifestRoot));
      var done := false;
      while !done
        invariant !done ==> Record(dstSrc, Entries(reader.rest, reader.manifestRoot)) == target
        invariant done ==> reader.rest == [] && dstSrc == target
        decreases |reader.rest| + (if done then 0 else 1)
      {
        ghost var n := NextOf(reader.rest, reader.manifestRoot);
        RecordNext(dstSrc, reader.rest, reader.manifestRoot);
        var dst, src, eof := reader.Next();
        assert NextResult(dst, src, eof, reader.rest) == n;
        if dst != "" && src != "" {
          dstSrc := dstSrc[dst := src];
        }
        if eof {
          done := true;
        }
      }
    }
  }

  // ---------------------------------------------------------------------
  // The partition size

  /** getSize: 0 for no file, the size os.Stat reports otherwise, None (fatal) when Stat fails. */
  function GetSize(path: string, sizes: map<string, nat>): (r: Option<nat>)
    ensures path == "" ==> r == Some(0)
    ensures path != "" && path in sizes ==> r == Some(sizes[path])
    ensures r.None? <==> path != "" && path !in sizes
  {
    if path == "" then Some(0)
    else if path in sizes then Some(sizes[path])
    else None
  }

  /** A size for the sum: that of GetSize, or 0 where it fails. */
  function SizeOr0(path: string, sizes: map<string, nat>): nat
  {
    match GetSize(path, sizes)
    case Some(s) => s
    case None => 0
  }

  /** The sum of the source sizes of the given destinations, in no particular order. */
  ghost function SumSizes(dstSrc: map<string, string>, sizes: map<string, nat>, keys: set<string>): nat
    requires keys <= dstSrc.Keys
    decreases |keys|
  {
    if keys == {} then 0
    else
      var k :| k in keys;
      SizeOr0(dstSrc[k], sizes) + SumSizes(dstSrc, sizes, keys - {k})
  }

  /** The sum does not depend on the order: any destination can be taken out first. */
  lemma {:induction false} SumSizesRemove(dstSrc: map<string, string>, sizes: map<string, nat>, keys: set<string>, k: string)
    requires keys <= dstSrc.Keys && k in keys
    ensures SumSizes(dstSrc, sizes, keys) == SizeOr0(dstSrc[k], sizes) + SumSizes(dstSrc, sizes, keys - {k})
    decreases |keys|
  {
    var x :| x in keys && SumSizes(dstSrc, sizes, keys) == SizeOr0(dstSrc[x], sizes) + SumSizes(dstSrc, sizes, keys - {x});
    if x != k {
      SumSizesRemove(dstSrc, sizes, keys - {x}, k);
      SumSizesRemove(dstSrc, sizes, keys - {k}, x);
      assert keys - {x} - {k} == keys - {k} - {x};
    }
  }

  /** The padding as written: total % 63 added when nonzero, in uint64. */
  function Pad(total: nat): (r: nat)
    requires IsU64(total)
    ensures IsU64(r)
  {
    var pad := total % 63;
    if pad != 0 then (total + pad) % TWO_64 else total
  }

  /**
   * What the padding does: without wrap-around it adds total % 63, so a
   * total that is a multiple of 63 is kept and any other grows by less
   * than 63 and lands on twice its remainder.
   */
  lemma PadFacts(total: nat)
    requires total + 63 <= TWO_64
    ensures Pad(total) == total + total % 63
    ensures total <= Pad(total) < total + 63
    ensures total % 63 == 0 <==> Pad(total) == total
    ensures Pad(total) % 63 == (2 * (total % 63)) % 63
  {
    var q, p := total / 63, total % 63;
    assert total == 63 * q + p;
    BelowWrap(total + p);
    if p != 0 {
      assert Pad(total) == total + p;
    }
    MulMod63(q, 2 * p);
    assert total + p == 63 * q + 2 * p;
  }

  /** Values below 2^64 are left alone by the uint64 wrap-around. */
  lemma BelowWrap(x: nat)
    requires x < TWO_64
    ensures x % TWO_64 == x
  {
  }

  /** Adding multiples of 63 does not change the remainder by 63. */
  lemma MulMod63(q: nat, x: nat)
    ensures (63 * q + x) % 63 == x % 63
  {
  }

  /**
   * computeSize: the sizes of all sources summed in uint64, in whatever
   * order the map is ranged over, then padded; None when a source cannot be
   * sized.
   */
  method ComputeSize(dstSrc: map<string, string>, sizes: map<string, nat>) returns (r: Option<nat>)
    ensures r.None? <==> exists dst :: dst in dstSrc && GetSize(dstSrc[dst], sizes).None?
    ensures r.Some? ==> r.value == Pad(SumSizes(dstSrc, sizes, dstSrc.Keys) % TWO_64)
  {
    var sum := SumSources(dstSrc, sizes);
    if sum.None? {
      return None;
    }
    var total := sum.value;
    var pad := total % 63;
    if pad != 0 {
      total := (total + pad) % TWO_64;
    }
    return Some(total);
  }

  /** The summing loop of computeSize: every source sized and added in uint64, or None. */
  method SumSources(dstSrc: map<string, string>, sizes: map<string, nat>) returns (r: Option<nat>)
    ensures r.None? <==> exists dst :: dst in dstSrc && GetSize(dstSrc[dst], sizes).None?
    ensures r.Some? ==> r.value == SumSizes(dstSrc, sizes, dstSrc.Keys) % TWO_64
  {
    var total := 0;
    var todo := dstSrc.Keys;
    ghost var whole := SumSizes(dstSrc, sizes, dstSrc.Keys);
    ghost var exact: nat := 0;
    ghost var wraps: nat := 0;
    while todo != {}
      invariant todo <= dstSrc.Keys
      invariant forall dst :: dst in dstSrc && dst !in todo ==> GetSize(dstSrc[dst], sizes).Some?
      invariant exact + SumSizes(dstSrc, sizes, todo) == whole
      invariant IsU64(total) && exact == wraps * TWO_64 + total
      decreases |todo|
    {
      var dst :| dst in todo;
      var size := GetSize(dstSrc[dst], sizes);
      if size.None? {
        assert dst in dstSrc && GetSize(dstSrc[dst], sizes).None?;
        return None;
      }
      SumSizesRemove(dstSrc, sizes, todo, dst);
      wraps := wraps + (total + size.value) / TWO_64;
      total := (total + size.value) % TWO_64;
      exact := exact + size.value;
      todo := todo - {dst};
    }
    ModUnique(whole, wraps, total);
    return Some(total);
  }

  /** A value below 2^64 that differs from w by whole wraps is w in uint64. */
  lemma ModUnique(w: nat, q: nat, t: nat)
    requires w == q * TWO_64 + t && t < TWO_64
    ensures w % TWO_64 == t
  {
  }

  /** A file-less destination counts 0, so the flags alone without files size to 0. */
  lemma NoFilesSizeZero(dstSrc: map<string, string>, sizes: map<string, nat>)
    requires forall dst :: dst in dstSrc ==> dstSrc[dst] == ""
    ensures SumSizes(dstSrc, sizes, dstSrc.Keys) == 0
  {
    SumZero(dstSrc, sizes, dstSrc.Keys);
  }

  lemma {:induction false} SumZero(dstSrc: map<string, string>, sizes: map<string, nat>, keys: set<string>)
    requires keys <= dstSrc.Keys && forall dst :: dst in keys ==> dstSrc[dst] == ""
    ensures SumSizes(dstSrc, sizes, keys) == 0
    decreases |keys|
  {
    if keys != {} {
      var k :| k in keys;
      SumSizesRemove(dstSrc, sizes, keys, k);
      SumZero(dstSrc, sizes, keys - {k});
    }
  }
}
