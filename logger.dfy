/** The `Logger`: a `{}`-placeholder formatter writing to a `Stream`, a
    message header with the level and the source location, and the two
    switches that select the header's parts. Each stream is modelled by
    the text written to it; arguments arrive already rendered as text. */
module Logging {

  import opened Options

  const Nul: char := '\0'

  /** The size of the buffer a format string is copied into from flash,
      less one for its terminator. */
  const FlashCopyMax := 255

  datatype Level = Trace | Debug | Info | Warn | Error | Fatal

  /** The level names, padded to a common width of five. */
  function LevelName(l: Level): (s: string)
    ensures |s| == 5 && Nul !in s
  {
    match l
    case Trace => "TRACE"
    case Debug => "DEBUG"
    case Info => "INFO "
    case Warn => "WARN "
    case Error => "ERROR"
    case Fatal => "FATAL"
  }

  /** The C string a character sequence holds: everything before the
      first NUL. */
  function Terminated(s: string): (r: string)
    ensures |r| <= |s| && r == s[..|r|] && Nul !in r
    ensures |r| == |s| || s[|r|] == Nul
  {
    if |s| == 0 || s[0] == Nul then "" else [s[0]] + Terminated(s[1..])
  }

  /** Whether p holds no terminator and no `{}`. */
  predicate Plain(p: string)
  {
    Nul !in p && forall i :: 0 <= i < |p| - 1 ==> !(p[i] == '{' && p[i + 1] == '}')
  }

  /** What `print_formatted_impl(format, args...)` writes: the format up
      to its terminator, each `{}` replaced by the next argument while
      arguments remain; once they are used up the rest is copied as it
      is, `{}` included: with no arguments at all a format without a
      terminator is copied as it is. */
  function Format(fmt: string, args: seq<string>): (r: string)
    ensures args == [] && Nul !in fmt ==> r == fmt
    decreases |fmt|
  {
    if |fmt| == 0 || fmt[0] == Nul then ""
    else if |args| > 0 && fmt[0] == '{' && |fmt| > 1 && fmt[1] == '}' then
      args[0] + Format(fmt[2..], args[1..])
    else [fmt[0]] + Format(fmt[1..], args)
  }

  /** With no arguments, the format is copied up to its terminator;
      each `{}` in it is printed as written. */
  lemma {:induction false} FormatNoArgs(fmt: string)
    ensures Format(fmt, []) == Terminated(fmt)
    decreases |fmt|
  {
    if |fmt| > 0 && fmt[0] != Nul {
      FormatNoArgs(fmt[1..]);
    }
  }

  /** The buffer `printFormattedFlash` formats from: at most 255
      characters copied from flash, up to the terminator. */
  function FlashCopy(s: string): (b: string)
    ensures |b| <= FlashCopyMax && |b| <= |s| && b == s[..|b|] && Nul !in b
    ensures Plain(s) && |s| <= FlashCopyMax ==> b == s
    ensures |b| == |s| || |b| == FlashCopyMax || s[|b|] == Nul
  {
    Terminated(if |s| <= FlashCopyMax then s else s[..FlashCopyMax])
  }

  /** `print_header(level, file, line)`: the padded level in brackets
      only when levels are shown, then `[file:line] ` only when locations
      are. */
  function Header(showLevel: bool, showLocation: bool, level: Level, file: string, line: string): (h: string)
    ensures |h| == (if showLevel then 8 else 0) + (if showLocation then |file| + |line| + 4 else 0)
    ensures showLevel ==> h[..8] == "[" + LevelName(level) + "] "
    ensures showLocation ==> h[|h| - |file| - |line| - 4..] == "[" + file + ":" + line + "] "
    ensures !showLevel && !showLocation ==> h == ""
  {
    (if showLevel then "[" + LevelName(level) + "] " else "") +
    (if showLocation then "[" + file + ":" + line + "] " else "")
  }

  /** A whole message: header, formatted body, and the line end that
      `println()` writes. */
  function Message(showLevel: bool, showLocation: bool, level: Level, file: string, line: string,
                   fmt: string, args: seq<string>): (m: string)
    ensures var h := Header(showLevel, showLocation, level, file, line);
      |m| >= |h| + 2 && m[..|h|] == h && m[|m| - 2..] == "\r\n" &&
      m[|h|..|m| - 2] == Format(FlashCopy(fmt), args)
  {
    Header(showLevel, showLocation, level, file, line) + Format(FlashCopy(fmt), args) + "\r\n"
  }

  // ---------------------------------------------------------------------
  // Format, against a template of plain pieces

  /** The pieces, with `{}` between each two. */
  function Join(pieces: seq<string>): string
    requires |pieces| >= 1
  {
    if |pieces| == 1 then pieces[0] else pieces[0] + "{}" + Join(pieces[1..])
  }

  /** The pieces with the arguments between them. */
  function Fill(pieces: seq<string>, args: seq<string>): string
    requires |pieces| == |args| + 1
  {
    if |args| == 0 then pieces[0] else pieces[0] + args[0] + Fill(pieces[1..], args[1..])
  }

  /** A format without placeholders is copied whatever the arguments:
      surplus arguments are never printed. */
  lemma {:induction false} FormatPlain(p: string, args: seq<string>)
    requires Plain(p)
    ensures Format(p, args) == p
    decreases |p|
  {
    if |p| > 0 {
      assert Plain(p[1..]) by {
        forall i | 0 <= i < |p[1..]| - 1
          ensures !(p[1..][i] == '{' && p[1..][i + 1] == '}')
        {
          assert p[1..][i] == p[i + 1] && p[1..][i + 1] == p[i + 2];
        }
      }
      FormatPlain(p[1..], args);
      assert p == [p[0]] + p[1..];
    }
  }

  /** The first `{}` after plain text takes the first argument. */
  lemma {:induction false} FormatFirst(p: string, q: string, args: seq<string>)
    requires Plain(p) && |args| > 0
    ensures Format(p + "{}" + q, args) == p + args[0] + Format(q, args[1..])
    decreases |p|
  {
    if |p| == 0 {
      assert p + "{}" + q == "{}" + q;
      assert ("{}" + q)[2..] == q;
    } else {
      assert (p + "{}" + q)[1..] == p[1..] + "{}" + q;
      assert Plain(p[1..]) by {
        forall i | 0 <= i < |p[1..]| - 1
          ensures !(p[1..][i] == '{' && p[1..][i + 1] == '}')
        {
          assert p[1..][i] == p[i + 1] && p[1..][i + 1] == p[i + 2];
        }
      }
      if |p| == 1 {
        assert (p + "{}" + q)[1] == '{';
      } else {
        assert (p + "{}" + q)[1] == p[1];
      }
      FormatFirst(p[1..], q, args);
      assert p + args[0] + Format(q, args[1..]) == [p[0]] + (p[1..] + args[0] + Format(q, args[1..]));
    }
  }

  /** Each `{}` of a template of plain pieces is replaced, left to right,
      by the next argument; arguments beyond the placeholders are not
      printed. */
  lemma {:induction false} FormatFills(pieces: seq<string>, args: seq<string>)
    requires |pieces| >= 1 && |args| >= |pieces| - 1
    requires forall k :: 0 <= k < |pieces| ==> Plain(pieces[k])
    ensures Format(Join(pieces), args) == Fill(pieces, args[..|pieces| - 1])
    decreases |pieces|
  {
    if |pieces| == 1 {
      FormatPlain(pieces[0], args);
    } else {
      FormatFirst(pieces[0], Join(pieces[1..]), args);
      FormatFills(pieces[1..], args[1..]);
      assert args[..|pieces| - 1][1..] == args[1..][..|pieces| - 2];
    }
  }

  /** Placeholders beyond the arguments are printed as `{}`. */
  lemma {:induction false} FormatSurplusPlaceholders(pieces: seq<string>, args: seq<string>)
    requires |args| < |pieces| - 1
    requires forall k :: 0 <= k < |pieces| ==> Plain(pieces[k])
    ensures Format(Join(pieces), args) ==
      Fill(pieces[..|args| + 1], args) + "{}" + Join(pieces[|args| + 1..])
    decreases |args|
  {
    if |args| == 0 {
      JoinPlain(pieces);
      assert pieces[1..] == pieces[|args| + 1..];
    } else {
      FormatFirst(pieces[0], Join(pieces[1..]), args);
      FormatSurplusPlaceholders(pieces[1..], args[1..]);
      assert pieces[..|args| + 1][1..] == pieces[1..][..|args|];
      assert pieces[1..][|args|..] == pieces[|args| + 1..];
      var head, f, j := pieces[0] + args[0], Fill(pieces[1..][..|args|], args[1..]), Join(pieces[|args| + 1..]);
      assert Fill(pieces[..|args| + 1], args) == head + f;
      Associative(head, f + "{}", j);
      Associative(head, f, "{}");
    }
  }

  /** A template without NUL in its pieces holds no NUL. */
  lemma {:induction false} JoinPlain(pieces: seq<string>)
    requires |pieces| >= 1
    requires forall k :: 0 <= k < |pieces| ==> Plain(pieces[k])
    ensures Nul !in Join(pieces)
    ensures Terminated(Join(pieces)) == Join(pieces)
    decreases |pieces|
  {
    if |pieces| > 1 {
      JoinPlain(pieces[1..]);
    }
    TerminatedPlain(Join(pieces));
  }

  lemma {:induction false} TerminatedPlain(s: string)
    requires Nul !in s
    ensures Terminated(s) == s
    decreases |s|
  {
    if |s| > 0 {
      assert s[0] in s;
      assert Nul !in s[1..] by {
        forall c | c in s[1..] ensures c != Nul { assert c in s; }
      }
      TerminatedPlain(s[1..]);
      assert s == [s[0]] + s[1..];
    }
  }

  /** Nothing after a terminator matters. */
  lemma {:induction false} FormatStopsAtNul(p: string, q: string, args: seq<string>)
    ensures Format(p + [Nul] + q, args) == Format(p, args)
    decreases |p|
  {
    var s := p + [Nul] + q;
    if |p| == 0 {
      assert s[0] == Nul;
    } else if p[0] == Nul {
      assert s[0] == Nul;
    } else if |args| > 0 && p[0] == '{' && |p| > 1 && p[1] == '}' {
      assert s[0] == '{' && s[1] == '}';
      assert s[2..] == p[2..] + [Nul] + q;
      FormatStopsAtNul(p[2..], q, args[1..]);
    } else {
      assert s[0] == p[0];
      assert |p| == 1 ==> s[1] == Nul;
      assert |p| > 1 ==> s[1] == p[1];
      assert s[1..] == p[1..] + [Nul] + q;
      FormatStopsAtNul(p[1..], q, args);
    }
  }

  /** One step of the copy: an ordinary character is copied as it is. */
  lemma FormatChar(fmt: string, i: int, args: seq<string>)
    requires 0 <= i < |fmt| && fmt[i] != Nul
    requires |args| == 0 || !(fmt[i] == '{' && i + 1 < |fmt| && fmt[i + 1] == '}')
    ensures Format(fmt[i..], args) == [fmt[i]] + Format(fmt[i + 1..], args)
  {
    assert fmt[i..][1..] == fmt[i + 1..];
  }

  /** One step of the copy: a placeholder takes the first argument. */
  lemma FormatPlaceholder(fmt: string, i: int, args: seq<string>)
    requires 0 <= i && i + 1 < |fmt| && fmt[i] == '{' && fmt[i + 1] == '}' && |args| > 0
    ensures Format(fmt[i..], args) == args[0] + Format(fmt[i + 2..], args[1..])
  {
    assert fmt[i..][2..] == fmt[i + 2..];
  }

  /** The copy ends at the terminator or at the end. */
  lemma FormatEnd(fmt: string, i: int, args: seq<string>)
    requires 0 <= i <= |fmt| && (i == |fmt| || fmt[i] == Nul)
    ensures Format(fmt[i..], args) == ""
  {
  }

  // ---------------------------------------------------------------------
  // Streams

  /** The text a record of streams holds for stream k. */
  function Lookup(w: map<nat, string>, k: nat): string
  {
    if k in w then w[k] else ""
  }

  /** The record after s is written to stream k: that stream's text
      grows by s, every other stays as it was. */
  function Write(w: map<nat, string>, k: nat, s: string): (r: map<nat, string>)
    ensures Lookup(r, k) == Lookup(w, k) + s
  {
    if s == "" then w else w[k := Lookup(w, k) + s]
  }

  lemma Associative(a: string, b: string, c: string)
    ensures a + (b + c) == (a + b) + c
  {
  }

  /** A write to one stream leaves the others as they were, and adds at
      most that stream to the record. */
  lemma WriteOthers(w: map<nat, string>, k: nat, s: string, j: nat)
    requires j != k
    ensures Lookup(Write(w, k, s), j) == Lookup(w, j)
    ensures Write(w, k, s).Keys <= w.Keys + {k}
  {
  }

  /** Two writes to the same stream are one write of both texts. */
  lemma WriteTwice(w: map<nat, string>, k: nat, a: string, b: string)
    ensures Write(Write(w, k, a), k, b) == Write(w, k, a + b)
  {
    if a == "" {
      assert a + b == b;
    } else if b == "" {
      assert a + b == a;
    } else {
      assert Lookup(w, k) + a + b == Lookup(w, k) + (a + b);
    }
  }

  // ---------------------------------------------------------------------
  // The object

  class Logger {
    var showLevel: bool
    var showLocation: bool
    /** `m_output`: the stream written to, or none. */
    var output: Option<nat>
    /** The text written to each stream. */
    var written: map<nat, string>

    function Text(k: nat): string
      reads this
    {
      Lookup(written, k)
    }

    /** `Logger()`: both header parts shown, output to `Serial`, here
        stream 0. */
    constructor ()
      ensures showLevel && showLocation && output == Some(0) && written == map[]
    {
      showLevel, showLocation := true, true;
      output := Some(0);
      written := map[];
    }

    method SetShowLevel(show: bool)
      modifies this
      ensures showLevel == show
      ensures showLocation == old(showLocation) && output == old(output) && written == old(written)
    {
      showLevel := show;
    }

    method SetShowLocation(show: bool)
      modifies this
      ensures showLocation == show
      ensures showLevel == old(showLevel) && output == old(output) && written == old(written)
    {
      showLocation := show;
    }

    method SetOutput(stream: Option<nat>)
      modifies this
      ensures output == stream
      ensures showLevel == old(showLevel) && showLocation == old(showLocation) && written == old(written)
    {
      output := stream;
    }

    /** `m_output->print(s)` */
    method Put(s: string)
      requires output.Some?
      modifies this
      ensures showLevel == old(showLevel) && showLocation == old(showLocation) && output == old(output)
      ensures written == Write(old(written), output.value, s)
    {
      written := Write(written, output.value, s);
    }

    /** `print_formatted_impl(format)`, with no arguments left. */
    method PrintPlain(fmt: string)
      requires output.Some?
      modifies this
      ensures showLevel == old(showLevel) && showLocation == old(showLocation) && output == old(output)
      ensures written == Write(old(written), output.value, Format(fmt, []))
    {
      ghost var k, w0 := output.value, written;
      var i := 0;
      while i < |fmt| && fmt[i] != Nul
        invariant 0 <= i <= |fmt|
        invariant Format(fmt, []) == fmt[..i] + Format(fmt[i..], [])
        invariant showLevel == old(showLevel) && showLocation == old(showLocation) && output == Some(k)
        invariant written == Write(w0, k, fmt[..i])
        decreases |fmt| - i
      {
        FormatChar(fmt, i, []);
        Put([fmt[i]]);
        WriteTwice(w0, k, fmt[..i], [fmt[i]]);
        assert fmt[..i + 1] == fmt[..i] + [fmt[i]];
        Associative(fmt[..i], [fmt[i]], Format(fmt[i + 1..], []));
        i := i + 1;
      }
      FormatEnd(fmt, i, []);
      assert fmt[..i] + "" == fmt[..i];
    }

    /** `print_formatted_impl(format, value, args...)`: copies the format
        until the first `{}`, writes the first argument there and carries
        on with the rest of the format and the remaining arguments. */
    method PrintFormatted(fmt: string, args: seq<string>)
      requires output.Some?
      modifies this
      ensures showLevel == old(showLevel) && showLocation == old(showLocation) && output == old(output)
      ensures written == Write(old(written), output.value, Format(fmt, args))
      decreases |args|
    {
      if |args| == 0 {
        PrintPlain(fmt);
        return;
      }
      ghost var k, w0 := output.value, written;
      var i := 0;
      while i < |fmt| && fmt[i] != Nul
        invariant 0 <= i <= |fmt|
        invariant Format(fmt, args) == fmt[..i] + Format(fmt[i..], args)
        invariant showLevel == old(showLevel) && showLocation == old(showLocation) && output == Some(k)
        invariant written == Write(w0, k, fmt[..i])
        decreases |fmt| - i
      {
        if fmt[i] == '{' && i + 1 < |fmt| && fmt[i + 1] == '}' {
          FormatPlaceholder(fmt, i, args);
          ghost var rest := Format(fmt[i + 2..], args[1..]);
          Put(args[0]);
          WriteTwice(w0, k, fmt[..i], args[0]);
          PrintFormatted(fmt[i + 2..], args[1..]);
          WriteTwice(w0, k, fmt[..i] + args[0], rest);
          Associative(fmt[..i], args[0], rest);
          return;
        }
        FormatChar(fmt, i, args);
        Put([fmt[i]]);
        WriteTwice(w0, k, fmt[..i], [fmt[i]]);
        assert fmt[..i + 1] == fmt[..i] + [fmt[i]];
        Associative(fmt[..i], [fmt[i]], Format(fmt[i + 1..], args));
        i := i + 1;
      }
      FormatEnd(fmt, i, args);
      assert fmt[..i] + "" == fmt[..i];
    }

    /** `print_header(level, file, line)` */
    method PrintHeader(level: Level, file: string, line: string)
      requires output.Some?
      modifies this
      ensures showLevel == old(showLevel) && showLocation == old(showLocation) && output == old(output)
      ensures written == Write(old(written), output.value, Header(showLevel, showLocation, level, file, line))
    {
      ghost var k := output.value;
      ghost var w0 := written;
      if showLevel {
        PutLevel(level);
      }
      ghost var lev := if showLevel then "[" + LevelName(level) + "] " else "";
      assert written == Write(w0, k, lev);
      if showLocation {
        PutLocation(file, line);
        WriteTwice(w0, k, lev, "[" + file + ":" + line + "] ");
      } else {
        assert lev + "" == lev;
      }
    }

    /** The level part of the header. */
    method PutLevel(level: Level)
      requires output.Some?
      modifies this
      ensures showLevel == old(showLevel) && showLocation == old(showLocation) && output == old(output)
      ensures written == Write(old(written), output.value, "[" + LevelName(level) + "] ")
    {
      Put("[");
      Put(LevelName(level));
      WriteTwice(old(written), output.value, "[", LevelName(level));
      Put("] ");
      WriteTwice(old(written), output.value, "[" + LevelName(level), "] ");
    }

    /** The location part of the header. */
    method PutLocation(file: string, line: string)
      requires output.Some?
      modifies this
      ensures showLevel == old(showLevel) && showLocation == old(showLocation) && output == old(output)
      ensures written == Write(old(written), output.value, "[" + file + ":" + line + "] ")
    {
      Put("[");
      Put(file);
      WriteTwice(old(written), output.value, "[", file);
      Put(":");
      WriteTwice(old(written), output.value, "[" + file, ":");
      Put(line);
      WriteTwice(old(written), output.value, "[" + file + ":", line);
      Put("] ");
      WriteTwice(old(written), output.value, "[" + file + ":" + line, "] ");
    }

    /** `trace`, `debug`, `info`, `warn`, `error` and `fatal`: nothing
        without an output; otherwise header, body and line end. */
    method Log(level: Level, file: string, line: string, fmt: string, args: seq<string>)
      modifies this
      ensures showLevel == old(showLevel) && showLocation == old(showLocation) && output == old(output)
      ensures output.None? ==> written == old(written)
      ensures output.Some? ==>
        written == Write(old(written), output.value, Message(showLevel, showLocation, level, file, line, fmt, args))
    {
      if output.None? {
        return;
      }
      PrintHeader(level, file, line);
      var buffer := FlashCopy(fmt);
      PrintFormatted(buffer, args);
      ghost var h := Header(showLevel, showLocation, level, file, line);
      WriteTwice(old(written), output.value, h, Format(buffer, args));
      Put("\r\n");
      WriteTwice(old(written), output.value, h + Format(buffer, args), "\r\n");
    }
  }
}
