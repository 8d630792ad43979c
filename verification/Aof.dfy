/** The append-only file of aof.go: checksummed lines appended by Write and read back by
    ReplayAOF.  The CRC-32 is any function of the text; a file is its text. */
module Aof {
  import opened Text

  /** bufio.Scanner's limit on a line with its newline, in bytes. */
  const MAX_LINE := 65536

  type Word = n: nat | n < 0x1_0000_0000
  type Checksum = string -> Word

  // ---------- eight hexadecimal digits ----------

  function Digit(n: nat): (d: char)
    requires n < 16
    ensures DigitValue(d) == Some(n) && !IsSpace(d) && Width(d) == 1 && d != ':' && d != '\n'
  {
    "0123456789abcdef"[n]
  }

  function DigitValue(ch: char): Option<nat> {
    if '0' <= ch <= '9' then Some(ch as int - '0' as int)
    else if 'a' <= ch <= 'f' then Some(ch as int - 'a' as int + 10)
    else if 'A' <= ch <= 'F' then Some(ch as int - 'A' as int + 10)
    else None
  }

  predicate AllDigits(s: string) {
    forall i :: 0 <= i < |s| ==> DigitValue(s[i]).Some? && !IsSpace(s[i]) && s[i] != ':' && s[i] != '\n'
  }

  function Hex(n: nat, width: nat): (s: string)
    ensures |s| == width && AllDigits(s) && Size(s) == width
  {
    if width == 0 then "" else Hex(n / 16, width - 1) + [Digit(n % 16)]
  }

  function HexPrefix(s: string, most: nat): (k: nat)
    ensures k <= most && k <= |s| && forall i :: 0 <= i < k ==> DigitValue(s[i]).Some?
    ensures |s| <= most && AllDigits(s) ==> k == |s|
  {
    if most == 0 || s == "" || DigitValue(s[0]) == None then 0 else 1 + HexPrefix(s[1..], most - 1)
  }

  function HexValue(s: string): nat
    requires forall i :: 0 <= i < |s| ==> DigitValue(s[i]).Some?
  {
    if s == "" then 0 else 16 * HexValue(s[..|s| - 1]) + DigitValue(s[|s| - 1]).value
  }

  /** Sscanf with %08x: up to eight hexadecimal digits, at least one. */
  function ScanHex(s: string): Option<nat> {
    var k := HexPrefix(s, 8);
    if k == 0 then None else Some(HexValue(s[..k]))
  }

  function Pow16(k: nat): nat {
    if k == 0 then 1 else 16 * Pow16(k - 1)
  }

  lemma {:induction false} HexIsRead(n: nat, width: nat)
    requires n < Pow16(width)
    ensures HexValue(Hex(n, width)) == n
  {
    if width > 0 {
      HexIsRead(n / 16, width - 1);
      var s := Hex(n, width);
      assert s[..|s| - 1] == Hex(n / 16, width - 1);
    }
  }

  lemma ChecksumIsRead(n: Word)
    ensures ScanHex(Hex(n, 8)) == Some(n)
  {
    assert Pow16(8) == 0x1_0000_0000;
    HexIsRead(n, 8);
    assert Hex(n, 8)[..8] == Hex(n, 8);
  }

  // ---------- one line ----------

  function Record(crc: Checksum, cmd: string): string {
    Hex(crc(cmd), 8) + ":" + cmd + "\n"
  }

  /** The command of a line of the file: none if it has no colon or its checksum is wrong. */
  function Entry(crc: Checksum, text: string): seq<string> {
    Checked(crc, TrimSpace(text))
  }

  function Checked(crc: Checksum, line: string): seq<string> {
    var colon := IndexOf(line, ':');
    if colon == |line| then [] else
      var expected := ScanHex(line[..colon]);
      var cmd := line[colon + 1..];
      if expected == Some(crc(cmd)) then [cmd] else []
  }

  /** What a line of the file can carry: no newline, and no white space at its end. */
  predicate Clean(cmd: string) {
    '\n' !in cmd && (cmd == "" || !IsSpace(cmd[|cmd| - 1]))
  }

  lemma {:induction false} TrimIsIdle(s: string)
    requires s != "" && !IsSpace(s[0]) && !IsSpace(s[|s| - 1])
    ensures TrimSpace(s) == s
  {
  }

  lemma CheckedRecord(crc: Checksum, hex: string, cmd: string)
    requires ':' !in hex && ScanHex(hex) == Some(crc(cmd))
    ensures Checked(crc, hex + [':'] + cmd) == [cmd]
  {
    var line := hex + [':'] + cmd;
    IndexIsFirst(hex, ':', cmd);
    assert line[..|hex|] == hex && line[|hex| + 1..] == cmd;
  }

  lemma EntryOfRecord(crc: Checksum, hex: string, cmd: string)
    requires Clean(cmd) && hex != "" && AllDigits(hex) && ScanHex(hex) == Some(crc(cmd))
    ensures Entry(crc, hex + [':'] + cmd) == [cmd]
  {
    RecordIsTrimmed(hex, cmd);
    CheckedRecord(crc, hex, cmd);
  }

  lemma RecordIsTrimmed(hex: string, cmd: string)
    requires hex != "" && AllDigits(hex) && Clean(cmd)
    ensures TrimSpace(hex + [':'] + cmd) == hex + [':'] + cmd
  {
    var line := hex + [':'] + cmd;
    assert line[0] == hex[0];
    assert line[|line| - 1] == if cmd == "" then ':' else cmd[|cmd| - 1];
    TrimIsIdle(line);
  }

  predicate AllClean(cmds: seq<string>) {
    forall i :: 0 <= i < |cmds| ==> Clean(cmds[i])
  }

  lemma OneClean(cmd: string)
    requires Clean(cmd)
    ensures AllClean([cmd])
  {
  }

  lemma CommandIsClean(line: string, colon: nat)
    requires '\n' !in line && colon < |line| && !IsSpace(line[|line| - 1])
    ensures Clean(line[colon + 1..])
  {
    SliceKeeps(line, colon + 1, |line|, '\n');
  }

  lemma TrimKeeps(text: string, ch: char)
    requires ch !in text
    ensures ch !in TrimSpace(text)
  {
    TrimLeftKeeps(text, ch);
    var left, line := TrimLeft(text), TrimSpace(text);
    assert line == left[0..|line|];
    SliceKeeps(left, 0, |line|, ch);
  }

  lemma EntryIsClean(crc: Checksum, text: string)
    requires '\n' !in text
    ensures AllClean(Entry(crc, text))
  {
    TrimKeeps(text, '\n');
    var line := TrimSpace(text);
    var colon := IndexOf(line, ':');
    if colon < |line| {
      CommandIsClean(line, colon);
      OneClean(line[colon + 1..]);
    }
  }

  // ---------- the file ----------

  class AofWriter {
    const crc: Checksum
    var file: string

    constructor (crc: Checksum, file: string)
      ensures this.crc == crc && this.file == file
    {
      this.crc := crc;
      this.file := file;
    }

    method Write(cmdLine: string)
      modifies this`file
      ensures file == old(file) + Record(crc, cmdLine)
    {
      var checksum := crc(cmdLine);
      file := file + (Hex(checksum, 8) + ":" + cmdLine + "\n");
    }
  }

  function FirstLine(text: string): string {
    text[..IndexOf(text, '\n')]
  }

  function AfterLine(text: string): (rest: string)
    requires text != ""
    ensures |rest| < |text|
  {
    var n := IndexOf(text, '\n');
    if n < |text| then text[n + 1..] else ""
  }

  /** Lines read one by one: a line over the limit stops the scanner. */
  function Scan(read: string -> seq<string>, text: string): seq<string>
    decreases |text|
  {
    if text == "" then [] else
      var line := FirstLine(text);
      if Size(line) + 1 > MAX_LINE then [] else read(line) + Scan(read, AfterLine(text))
  }

  function Reader(crc: Checksum): string -> seq<string> {
    line => Entry(crc, line)
  }

  /** The commands of a file. */
  function Replay(crc: Checksum, text: string): seq<string> {
    Scan(Reader(crc), text)
  }

  method ReadLine(crc: Checksum, raw: string) returns (commands: seq<string>)
    ensures commands == Entry(crc, raw)
  {
    var line := TrimSpace(raw);
    if line == "" {
      return [];
    }
    var colon := IndexOf(line, ':');
    if colon == |line| {
      return [];
    }
    var expected := ScanHex(line[..colon]);
    if expected == None {
      return [];
    }
    var cmd := line[colon + 1..];
    if crc(cmd) != expected.value {
      return [];
    }
    return [cmd];
  }

  lemma ScanNext(crc: Checksum, text: string)
    requires text != ""
    ensures var line := FirstLine(text);
      Replay(crc, text) == if Size(line) + 1 > MAX_LINE then [] else Entry(crc, line) + Replay(crc, AfterLine(text))
  {
    hide FirstLine, Size, Entry;
  }

  lemma NothingToReplay(crc: Checksum)
    ensures Replay(crc, "") == []
  {
  }

  method ReplayAOF(crc: Checksum, text: string) returns (commands: seq<string>)
    ensures commands == Replay(crc, text)
    ensures forall cmd :: cmd in commands ==> exists line :: IsLineOf(line, text) && Vouches(crc, line, cmd)
  {
    hide Replay, IsLineOf, Vouches, FirstLine, AfterLine, Size, Entry;
    ReplayIsVouched(crc, text);
    commands := [];
    var rest := text;
    while rest != ""
      invariant commands + Replay(crc, rest) == Replay(crc, text)
      decreases |rest|
    {
      ScanNext(crc, rest);
      var line := FirstLine(rest);
      if Size(line) + 1 > MAX_LINE {
        assert commands + [] == commands;
        return;
      }
      var entry := ReadLine(crc, line);
      Assoc(commands, entry, Replay(crc, AfterLine(rest)));
      commands := commands + entry;
      rest := AfterLine(rest);
    }
    NothingToReplay(crc);
  }

  function File(crc: Checksum, cmds: seq<string>): string {
    if cmds == [] then "" else Record(crc, cmds[0]) + File(crc, cmds[1..])
  }

  /** A command that Write and ReplayAOF preserve: a clean one whose line is within the limit. */
  predicate Survives(cmd: string) {
    Clean(cmd) && Size(cmd) + 10 <= MAX_LINE
  }

  lemma RecordSize(hex: string, cmd: string)
    ensures Size(hex + [':'] + cmd) == Size(hex) + 1 + Size(cmd)
  {
    SizeConcat(hex + [':'], cmd);
    SizeConcat(hex, [':']);
    assert Size([':']) == Size([':'][..0]) + 1;
  }

  lemma ScanFirst(read: string -> seq<string>, line: string, rest: string)
    requires '\n' !in line
    ensures Scan(read, line + ['\n'] + rest)
         == if Size(line) + 1 > MAX_LINE then [] else read(line) + Scan(read, rest)
  {
    var text := line + ['\n'] + rest;
    IndexIsFirst(line, '\n', rest);
    assert FirstLine(text) == line && AfterLine(text) == rest;
  }

  lemma ReplayRecord(crc: Checksum, cmd: string, rest: string)
    requires Clean(cmd)
    ensures Replay(crc, Record(crc, cmd) + rest)
         == if Survives(cmd) then [cmd] + Replay(crc, rest) else []
  {
    var hex := Hex(crc(cmd), 8);
    var line := hex + [':'] + cmd;
    assert Record(crc, cmd) + rest == line + ['\n'] + rest;
    ChecksumIsRead(crc(cmd));
    EntryOfRecord(crc, hex, cmd);
    RecordSize(hex, cmd);
    ScanFirst(Reader(crc), line, rest);
  }

  lemma {:induction false} ScanIsClean(read: string -> seq<string>, text: string)
    requires forall line :: '\n' !in line ==> AllClean(read(line))
    ensures AllClean(Scan(read, text))
    decreases |text|
  {
    if text != "" {
      ScanIsClean(read, AfterLine(text));
      assert AllClean(read(FirstLine(text)));
    }
  }

  lemma ReplayIsClean(crc: Checksum, text: string)
    ensures AllClean(Replay(crc, text))
  {
    forall line | '\n' !in line ensures AllClean(Reader(crc)(line)) {
      EntryIsClean(crc, line);
    }
    ScanIsClean(Reader(crc), text);
  }

  /** Whatever follows in the file (a line torn by a crash, say), the records before it are
      all replayed, in order. */
  lemma {:induction false} ReplayPrefix(crc: Checksum, cmds: seq<string>, tail: string)
    requires forall i :: 0 <= i < |cmds| ==> Survives(cmds[i])
    ensures Replay(crc, File(crc, cmds) + tail) == cmds + Replay(crc, tail)
  {
    hide Replay, Record, Size, IsSpace;
    if cmds == [] {
      assert File(crc, cmds) + tail == tail;
    } else {
      var first, others := cmds[0], File(crc, cmds[1..]) + tail;
      ReplayPrefix(crc, cmds[1..], tail);
      Assoc(Record(crc, first), File(crc, cmds[1..]), tail);
      ReplayRecord(crc, first, others);
      assert cmds == [first] + cmds[1..];
      Assoc([first], cmds[1..], Replay(crc, tail));
    }
  }

  lemma {:induction false} ReplayNeeds(crc: Checksum, cmds: seq<string>)
    requires AllClean(cmds)
    ensures Replay(crc, File(crc, cmds)) == cmds ==> forall i :: 0 <= i < |cmds| ==> Survives(cmds[i])
  {
    hide Replay, Record, Size, IsSpace;
    if cmds != [] {
      ReplayNeeds(crc, cmds[1..]);
      ReplayRecord(crc, cmds[0], File(crc, cmds[1..]));
    }
  }

  /** Replaying what was written gives the commands back exactly when all of them survive. */
  lemma ReplayInvertsWrite(crc: Checksum, cmds: seq<string>)
    ensures Replay(crc, File(crc, cmds)) == cmds <==> forall i :: 0 <= i < |cmds| ==> Survives(cmds[i])
  {
    if forall i :: 0 <= i < |cmds| ==> Survives(cmds[i]) {
      ReplayPrefix(crc, cmds, "");
      assert File(crc, cmds) + "" == File(crc, cmds);
    } else if Replay(crc, File(crc, cmds)) == cmds {
      ReplayIsClean(crc, File(crc, cmds));
      ReplayNeeds(crc, cmds);
    }
  }

  // ---------- any file, damaged or not ----------

  /** A trimmed line vouches for a command: the command is what follows its first colon, and the
      hexadecimal digits before that, up to eight, are the checksum of the command. */
  ghost predicate Vouches(crc: Checksum, line: string, cmd: string) {
    exists head :: ':' !in head && TrimSpace(line) == head + [':'] + cmd && Reads(head, crc(cmd))
  }

  /** The longest run of hexadecimal digits at the start, up to eight, is this number. */
  ghost predicate Reads(head: string, w: Word) {
    exists k :: 1 <= k <= |head| && k <= 8 && AllHex(head[..k]) && HexValue(head[..k]) == w
                && (k < 8 && k < |head| ==> DigitValue(head[k]) == None)
  }

  predicate AllHex(s: string) {
    forall i :: 0 <= i < |s| ==> DigitValue(s[i]).Some?
  }

  lemma {:induction false} PrefixEnds(s: string, most: nat)
    ensures HexPrefix(s, most) < most && HexPrefix(s, most) < |s| ==> DigitValue(s[HexPrefix(s, most)]) == None
  {
    if most != 0 && s != "" && DigitValue(s[0]).Some? {
      PrefixEnds(s[1..], most - 1);
    }
  }

  lemma ScanReads(head: string, w: Word)
    ensures ScanHex(head) == Some(w) <==> Reads(head, w)
  {
    var n := HexPrefix(head, 8);
    PrefixEnds(head, 8);
    if Reads(head, w) {
      var k :| 1 <= k <= |head| && k <= 8 && AllHex(head[..k]) && HexValue(head[..k]) == w
               && (k < 8 && k < |head| ==> DigitValue(head[k]) == None);
      assert forall i :: 0 <= i < k ==> head[i] == head[..k][i];
      assert n == k;
    }
    if ScanHex(head) == Some(w) {
      assert AllHex(head[..n]);
    }
  }

  /** A line gives a command exactly if it vouches for it, and else nothing. */
  lemma EntryExactly(crc: Checksum, line: string, cmd: string)
    ensures Entry(crc, line) == [cmd] <==> Vouches(crc, line, cmd)
    ensures Entry(crc, line) == [] || exists c :: Entry(crc, line) == [c]
  {
    hide Reads;
    var text := TrimSpace(line);
    var colon := IndexOf(text, ':');
    if Vouches(crc, line, cmd) {
      var head :| ':' !in head && text == head + [':'] + cmd && Reads(head, crc(cmd));
      IndexIsFirst(head, ':', cmd);
      ScanReads(head, crc(cmd));
      assert text[..colon] == head && text[colon + 1..] == cmd;
    }
    if colon < |text| {
      var head := text[..colon];
      assert text == head + [':'] + text[colon + 1..];
      ScanReads(head, crc(text[colon + 1..]));
    }
  }

  ghost predicate LineAt(line: string, text: string, i: nat, j: nat) {
    && i <= j <= |text| && text[i..j] == line && '\n' !in line
    && (i == 0 || text[i - 1] == '\n') && (j == |text| || text[j] == '\n')
  }

  /** The lines of a text. */
  ghost predicate IsLineOf(line: string, text: string) {
    exists i, j :: LineAt(line, text, i, j)
  }

  lemma LaterLine(line: string, text: string)
    requires text != "" && AfterLine(text) != "" && IsLineOf(line, AfterLine(text))
    ensures IsLineOf(line, text)
  {
    var n, rest := IndexOf(text, '\n'), AfterLine(text);
    var i: nat, j: nat :| LineAt(line, rest, i, j);
    assert rest == text[n + 1..];
    assert text[n + 1 + i..n + 1 + j] == line;
    assert LineAt(line, text, n + 1 + i, n + 1 + j);
  }

  lemma FirstIsLine(text: string)
    ensures IsLineOf(FirstLine(text), text)
  {
    var n := IndexOf(text, '\n');
    assert text[0..n] == FirstLine(text);
    assert LineAt(FirstLine(text), text, 0, n);
  }

  /** Whatever the file holds, each command replayed is vouched for by one of its lines. */
  lemma {:induction false} ReplayIsVouched(crc: Checksum, text: string)
    ensures forall cmd :: cmd in Replay(crc, text) ==> exists line :: IsLineOf(line, text) && Vouches(crc, line, cmd)
    decreases |text|
  {
    hide Replay, IsLineOf, Vouches, Entry;
    if text != "" {
      var line, rest := FirstLine(text), AfterLine(text);
      ScanNext(crc, text);
      ReplayIsVouched(crc, rest);
      FirstIsLine(text);
      forall cmd | cmd in Replay(crc, text) ensures exists l :: IsLineOf(l, text) && Vouches(crc, l, cmd) {
        EntryExactly(crc, line, cmd);
        if cmd in Entry(crc, line) {
          assert Entry(crc, line) == [cmd];
        } else {
          NothingToReplay(crc);
          var l :| IsLineOf(l, rest) && Vouches(crc, l, cmd);
          LaterLine(l, text);
        }
      }
    } else {
      NothingToReplay(crc);
    }
  }

  /** A line with any checksum at all: it is replayed if that is the right one, skipped if not, and
      the scanner stops at it if it is too long. */
  lemma LineIsReplayed(crc: Checksum, w: Word, cmd: string, rest: string)
    requires Clean(cmd)
    ensures Replay(crc, Hex(w, 8) + ":" + cmd + "\n" + rest)
         == if Size(cmd) + 10 > MAX_LINE then []
            else (if w == crc(cmd) then [cmd] else []) + Replay(crc, rest)
  {
    var hex := Hex(w, 8);
    var line := hex + [':'] + cmd;
    assert hex + ":" + cmd + "\n" + rest == line + ['\n'] + rest;
    ChecksumIsRead(w);
    RecordIsTrimmed(hex, cmd);
    RecordSize(hex, cmd);
    ScanFirst(Reader(crc), line, rest);
    IndexIsFirst(hex, ':', cmd);
    assert line[..|hex|] == hex && line[|hex| + 1..] == cmd;
  }

  lemma HexNext(n: nat, d: nat, k: nat)
    requires d < 16
    ensures Hex(16 * n + d, k + 1) == Hex(n, k) + [Digit(d)]
  {
    hide AllDigits, Size, DigitValue, Digit;
    var m := 16 * n + d;
    assert m / 16 == n && m % 16 == d;
    assert Hex(m, k + 1) == Hex(m / 16, k) + [Digit(m % 16)];
  }

  /** The digits of a checksum: lower case, the highest first. */
  lemma HexDigits()
    ensures Hex(0xCBF4_3926, 8) == "cbf43926"
  {
    hide Hex;
    HexNext(0xCBF_4392, 6, 7);
    HexNext(0xCB_F439, 2, 6);
    HexNext(0xC_BF43, 9, 5);
    HexNext(0xCBF4, 3, 4);
    HexNext(0xCBF, 4, 3);
    HexNext(0xCB, 15, 2);
    HexNext(0xC, 11, 1);
    HexNext(0, 12, 0);
    assert Hex(0, 0) == "";
  }
}
