/** updateDisplay: the screen shows the message count and the last five messages of the
    buffer, oldest first, numbered from 1. */
module Display {
  import opened Numerals

  const MaxMessagesToShow: nat := 5

  /** `buffer.slice(-MaxMessagesToShow)`: the last five messages, or all of them when there
      are fewer. */
  function Window(buffer: seq<string>): (w: seq<string>)
    ensures |w| == if |buffer| < MaxMessagesToShow then |buffer| else MaxMessagesToShow
  {
    if |buffer| <= MaxMessagesToShow then buffer else buffer[|buffer| - MaxMessagesToShow..]
  }

  /** The window is a suffix of the buffer: its entries are the newest messages, in order. */
  lemma WindowIsSuffix(buffer: seq<string>)
    ensures Window(buffer) == buffer[|buffer| - |Window(buffer)|..]
  {
  }

  /** Receiving one more message slides the window: the new message becomes its last
      entry, and the oldest one drops out once five are shown. */
  lemma WindowAfterPush(buffer: seq<string>, msg: string)
    ensures Window(buffer + [msg]) ==
      (if |buffer| < MaxMessagesToShow then Window(buffer) else Window(buffer)[1..]) + [msg]
  {
    var b := buffer + [msg];
    if |buffer| >= MaxMessagesToShow {
      assert b[|b| - MaxMessagesToShow..] == buffer[|buffer| - MaxMessagesToShow + 1..] + [msg];
    }
  }

  /** One line of the terminal, as updateDisplay writes it. */
  datatype Line =
    | CountLine(total: nat)               // the running count of messages
    | BlankLine                           // the empty line after the count
    | CaptionLine(shown: nat)             // the caption above the window
    | EntryLine(number: nat, msg: string) // a message of the window, numbered from 1

  /** The characters of a line. */
  function Text(line: Line): string {
    match line
    case CountLine(total) => "Total messages received: " + NatToString(total)
    case BlankLine => ""
    case CaptionLine(shown) => "Last " + NatToString(shown) + " messages:"
    case EntryLine(number, msg) => NatToString(number) + ". " + msg
  }

  /** An entry line is its number, a dot and a space, and then the message verbatim. */
  lemma EntryText(number: nat, msg: string)
    ensures var t := Text(EntryLine(number, msg));
      && t[..|t| - |msg|] == NatToString(number) + ". "
      && t[|t| - |msg|..] == msg
  {
    var t := Text(EntryLine(number, msg));
    assert t == (NatToString(number) + ". ") + msg;
  }

  /** The lines above the messages: the count, a blank line and the caption. */
  const HeaderSize: nat := 3

  function Header(total: nat): (h: seq<Line>)
    ensures |h| == HeaderSize
  {
    [CountLine(total), BlankLine, CaptionLine(MaxMessagesToShow)]
  }

  /** The numbered lines for the entries of a window, in order: entry i is numbered i + 1. */
  function Entries(w: seq<string>): (lines: seq<Line>)
    ensures |lines| == |w|
  {
    seq(|w|, i requires 0 <= i < |w| => EntryLine(i + 1, w[i]))
  }

  /** The screen after a redraw: the header, then the window, numbered from 1. */
  function Screen(total: nat, buffer: seq<string>): (lines: seq<Line>)
    ensures |lines| == HeaderSize + |Window(buffer)|
  {
    Header(total) + Entries(Window(buffer))
  }

  /** The screen starts with the header. */
  lemma ScreenHeader(total: nat, buffer: seq<string>)
    ensures Screen(total, buffer)[..HeaderSize] == Header(total)
  {
    assert (Header(total) + Entries(Window(buffer)))[..HeaderSize] == Header(total);
  }

  /** Below the header, line i of the screen is window entry i - HeaderSize, numbered from 1. */
  lemma ScreenLines(total: nat, buffer: seq<string>)
    ensures forall i :: HeaderSize <= i < |Screen(total, buffer)| ==>
      Screen(total, buffer)[i] == EntryLine(i - HeaderSize + 1, Window(buffer)[i - HeaderSize])
  {
    var h := Header(total);
    var e := Entries(Window(buffer));
    assert Screen(total, buffer) == h + e;
    forall i | HeaderSize <= i < |h + e|
      ensures (h + e)[i] == EntryLine(i - HeaderSize + 1, Window(buffer)[i - HeaderSize])
    {
      assert (h + e)[i] == e[i - |h|];
    }
  }

  /** updateDisplay: clears the screen, writes the header and then one numbered line per
      message of the window. */
  method Render(total: nat, buffer: seq<string>) returns (lines: seq<Line>)
    ensures lines == Screen(total, buffer)
  {
    var shown := Window(buffer);
    lines := Header(total);
    var idx := 0;
    while idx < |shown|
      invariant 0 <= idx <= |shown|
      invariant lines == Header(total) + Entries(shown[..idx])
    {
      assert shown[..idx + 1][..idx] == shown[..idx];
      lines := lines + [EntryLine(idx + 1, shown[idx])];
      idx := idx + 1;
    }
    assert shown[..idx] == shown;
  }

  /** After a message arrives the screen's last line is that message, numbered with the size
      of the window. */
  lemma LastLineIsNewest(total: nat, buffer: seq<string>, msg: string)
    ensures var lines := Screen(total, buffer + [msg]);
      lines[|lines| - 1] == EntryLine(|Window(buffer + [msg])|, msg)
  {
    var b := buffer + [msg];
    var w := Window(b);
    assert |w| > 0;
    assert b[|b| - |w| + (|w| - 1)] == msg;
  }
}
