/** `getBriefingReplyTemplate` (lib/email-templates.ts:4-87): the HTML reply to a
    briefing. The message's line feeds become `<br>`, and the name and the formatted
    message are spliced, unescaped, into a fixed document. */
module EmailTemplates {
  import Text

  const PrimaryColor: string := "#EA679B"
  const InkColor: string := "#1c1c1c"
  const LightBg: string := "#F9F9F9"

  /** `message.replace(/\n/g, '<br>')`: every line feed becomes `<br>`; a carriage
      return is an ordinary character here. */
  function FormatMessage(message: string): (r: string)
    ensures '\n' !in r
    decreases |message|
  {
    if message == [] then []
    else (if message[0] == '\n' then "<br>" else [message[0]]) + FormatMessage(message[1..])
  }

  /** The replacement works character by character, so it distributes over `+`. */
  lemma {:induction false} FormatMessageAppend(a: string, b: string)
    ensures FormatMessage(a + b) == FormatMessage(a) + FormatMessage(b)
  {
    if a == [] {
      assert a + b == b;
    } else {
      var head := if a[0] == '\n' then "<br>" else [a[0]];
      assert (a + b)[0] == a[0] && (a + b)[1..] == a[1..] + b;
      FormatMessageAppend(a[1..], b);
      var x, y := FormatMessage(a[1..]), FormatMessage(b);
      assert FormatMessage(a + b) == head + (x + y);
      assert head + (x + y) == (head + x) + y;
    }
  }

  /** Each line feed adds three characters and nothing else changes length. */
  lemma {:induction false} FormatMessageLength(message: string)
    ensures |FormatMessage(message)| == |message| + 3 * Text.Count(message, '\n')
    decreases |message|
  {
    if message != [] {
      FormatMessageLength(message[1..]);
    }
  }

  /** A message without line feeds is used as it is. */
  lemma {:induction false} FormatMessageKeepsPlain(message: string)
    requires '\n' !in message
    ensures FormatMessage(message) == message
    decreases |message|
  {
    if message != [] {
      assert message == [message[0]] + message[1..];
      FormatMessageKeepsPlain(message[1..]);
    }
  }

  /** One character: a line feed gives `<br>`, anything else stays. */
  lemma FormatMessageChar(c: char)
    ensures FormatMessage([c]) == if c == '\n' then "<br>" else [c]
  {
    assert [c][1..] == [];
  }

  /** A line without line feeds, then a line feed: the line is kept and the line feed
      becomes `<br>`. */
  lemma FormatAtLineFeed(line: string, rest: string)
    requires '\n' !in line
    ensures FormatMessage(line + ['\n'] + rest) == line + "<br>" + FormatMessage(rest)
  {
    var lf := ['\n'];
    assert line + lf + rest == line + (lf + rest);
    FormatMessageAppend(line, lf + rest);
    FormatMessageAppend(lf, rest);
    FormatMessageKeepsPlain(line);
    FormatMessageChar('\n');
    var x := FormatMessage(rest);
    assert line + ("<br>" + x) == line + "<br>" + x;
  }

  /** The reference definition: cut the message at its line feeds and join the lines
      with `<br>`. So the characters other than line feeds are kept, in order. */
  lemma {:induction false} FormatMessageJoinsLines(message: string)
    ensures FormatMessage(message) == Text.Join(Text.Split(message, '\n'), "<br>")
    decreases |message|
  {
    var i := Text.IndexOf(message, '\n');
    if i == |message| {
      FormatMessageKeepsPlain(message);
      assert Text.Split(message, '\n') == [message];
    } else {
      FormatMessageJoinsLines(message[i + 1..]);
      JoinsLinesAt(message, i);
    }
  }

  /** The step of `FormatMessageJoinsLines` at the first line feed, at position `i`. */
  lemma JoinsLinesAt(message: string, i: nat)
    requires i < |message| && i == Text.IndexOf(message, '\n')
    requires FormatMessage(message[i + 1..]) == Text.Join(Text.Split(message[i + 1..], '\n'), "<br>")
    ensures FormatMessage(message) == Text.Join(Text.Split(message, '\n'), "<br>")
  {
    var line, rest := message[..i], message[i + 1..];
    var tail := Text.Split(rest, '\n');
    Text.Around(message, i);
    FormatAtLineFeed(line, rest);
    Text.SplitAtFirst(message, '\n');
    JoinCons(line, tail, "<br>");
  }

  lemma JoinCons(line: string, tail: seq<string>, sep: string)
    requires tail != []
    ensures Text.Join([line] + tail, sep) == line + sep + Text.Join(tail, sep)
  {
    var pieces := [line] + tail;
    assert pieces[0] == line && pieces[1..] == tail && |pieces| > 1;
  }

  /** A Windows line end keeps its carriage return: `\r\n` becomes `\r<br>`. */
  lemma CrLfKeepsCr(a: string, b: string)
    ensures FormatMessage(a + "\r\n" + b) == FormatMessage(a) + "\r<br>" + FormatMessage(b)
  {
    var crlf := "\r\n";
    FormatMessageAppend(a + crlf, b);
    FormatMessageAppend(a, crlf);
    FormatCrLf(crlf);
  }

  lemma FormatCrLf(crlf: string)
    requires crlf == "\r\n"
    ensures FormatMessage(crlf) == "\r<br>"
  {
    FormatMessageAppend(['\r'], ['\n']);
    FormatMessageChar('\r');
    FormatMessageChar('\n');
    assert crlf == ['\r'] + ['\n'];
  }

  const Seg0: string :=
    "\n" +
    "    <!DOCTYPE html>\n" +
    "    <html>\n" +
    "    <head>\n" +
    "        <meta charset=\"utf-8\">\n" +
    "        <meta name=\"viewport\" content=\"width=device-width, initial-scale=1.0\">\n" +
    "        <title>Resposta Lina Galdino</title>\n" +
    "    </head>\n" +
    "    <body style=\"margin: 0; padding: 0; background-color: "

  const Seg1: string :=
    "; font-family: 'Helvetica Neue', Helvetica, Arial, sans-serif; -webkit-font-smoothing: antialiased;\">\n" +
    "        <table border=\"0\" cellpadding=\"0\" cellspacing=\"0\" width=\"100%\" style=\"background-color: "

  const Seg2: string :=
    ";\">\n" +
    "            <tr>\n" +
    "                <td align=\"center\" style=\"padding: 40px 20px;\">\n" +
    "                    <table border=\"0\" cellpadding=\"0\" cellspacing=\"0\" width=\"100%\" style=\"max-width: 600px; background-color: #ffffff; border-radius: 24px; overflow: hidden; box-shadow: 0 10px 30px rgba(234, 103, 155, 0.08);\">\n" +
    "                        <!-- Header -->\n" +
    "                        <tr>\n" +
    "                            <td align=\"center\" style=\"background-color: #ffffff; padding: 45px 30px; border-bottom: 1px solid #f0f0f0;\">\n" +
    "                                <h1 style=\"color: "

  const Seg3: string :=
    "; margin: 0; font-family: 'Amoresa', 'Georgia', serif; font-size: 38px; font-weight: normal; font-style: italic;\">Lina Galdino</h1>\n" +
    "                                <p style=\"color: #999999; margin: 5px 0 0 0; font-size: 11px; text-transform: uppercase; letter-spacing: 4px; font-family: 'Helvetica', sans-serif;\">Estrat\U{E9}gia & Criatividade</p>\n" +
    "                            </td>\n" +
    "                        </tr>\n" +
    "                        \n" +
    "                        <!-- Body -->\n" +
    "                        <tr>\n" +
    "                            <td style=\"padding: 50px 40px;\">\n" +
    "                                <p style=\"font-size: 18px; color: "

  const Seg4: string :=
    "; margin-bottom: 30px;\">Ol\U{E1}, <strong>"

  const Seg5: string :=
    "</strong>,</p>\n" +
    "                                \n" +
    "                                <div style=\"font-size: 16px; line-height: 1.8; color: #444444;\">\n" +
    "                                    "

  const Seg6: string :=
    "\n" +
    "                                </div>\n" +
    "                                \n" +
    "                                <!-- Divisor -->\n" +
    "                                <div style=\"margin: 40px 0; border-top: 1px solid #f0f0f0;\"></div>\n" +
    "                                \n" +
    "                                <!-- Signature -->\n" +
    "                                <table border=\"0\" cellpadding=\"0\" cellspacing=\"0\" width=\"100%\">\n" +
    "                                    <tr>\n" +
    "                                        <td>\n" +
    "                                            <p style=\"font-size: 14px; color: #999999; margin-bottom: 8px;\">Com carinho,</p>\n" +
    "                                            <p style=\"font-size: 20px; font-weight: bold; color: "

  const Seg7: string :=
    "; margin: 0; font-family: 'Georgia', serif;\">Lina Galdino</p>\n" +
    "                                            <p style=\"font-size: 13px; color: #777777; margin: 4px 0 0 0;\">Social Media & Estrategista Digital</p>\n" +
    "                                        </td>\n" +
    "                                        <td align=\"right\">\n" +
    "                                            <!-- Logo ou Elemento Decorativo Opcional -->\n" +
    "                                            <div style=\"width: 40px; height: 40px; border-radius: 50%; background-color: "

  const Seg8: string :=
    "; opacity: 0.1;\"></div>\n" +
    "                                        </td>\n" +
    "                                    </tr>\n" +
    "                                </table>\n" +
    "                            </td>\n" +
    "                        </tr>\n" +
    "                        \n" +
    "                        <!-- Footer -->\n" +
    "                        <tr>\n" +
    "                            <td align=\"center\" style=\"background-color: #fafafa; padding: 25px 40px; border-top: 1px solid #f0f0f0;\">\n" +
    "                                <p style=\"margin: 0; font-size: 13px; color: #888888;\">\n" +
    "                                    Acompanhe meu trabalho no \n" +
    "                                    <a href=\"https://instagram.com/linagaldin\" style=\"color: "

  const Seg9: string :=
    "; text-decoration: none; font-weight: bold;\">Instagram</a>\n" +
    "                                </p>\n" +
    "                            </td>\n" +
    "                        </tr>\n" +
    "                    </table>\n" +
    "                    \n" +
    "                    <!-- Bottom Info -->\n" +
    "                    <table border=\"0\" cellpadding=\"0\" cellspacing=\"0\" width=\"100%\" style=\"max-width: 600px;\">\n" +
    "                        <tr>\n" +
    "                            <td align=\"center\" style=\"padding: 25px 0; font-size: 11px; color: #bbbbbb; text-transform: uppercase; letter-spacing: 1px;\">\n" +
    "                                \U{A9} 2026 Lina Galdino \U{2022} Consultoria Digital\n" +
    "                            </td>\n" +
    "                        </tr>\n" +
    "                    </table>\n" +
    "                </td>\n" +
    "            </tr>\n" +
    "        </table>\n" +
    "    </body>\n" +
    "    </html>\n" +
    "    "

  /** The fixed text of a reply: everything before the name, between the name and the
      message, and after the message. */
  datatype Letter = Letter(head: string, middle: string, tail: string)

  /** The brand's letter: the light background twice and the brand colour for the
      heading, then the ink colour for the greeting before the name; the brand colour
      three more times after the message. */
  const BriefingLetter: Letter :=
    Letter(Seg0 + LightBg + Seg1 + LightBg + Seg2 + PrimaryColor + Seg3 + InkColor + Seg4,
           Seg5,
           Seg6 + PrimaryColor + Seg7 + PrimaryColor + Seg8 + PrimaryColor + Seg9)

  /** The name and the formatted message spliced into the letter's fixed text, as the
      template literal does. */
  function Render(letter: Letter, name: string, message: string): string {
    letter.head + name + letter.middle + FormatMessage(message) + letter.tail
  }

  /** `getBriefingReplyTemplate(name, message)`. */
  function BriefingReplyTemplate(name: string, message: string): string {
    Render(BriefingLetter, name, message)
  }

  /** The splicing can be undone: given the length of the name, the name and the
      formatted message are read back from fixed offsets, unchanged (no escaping), and
      the fixed text is found around them as it is. */
  lemma SplicedVerbatim(letter: Letter, name: string, message: string)
    ensures var html := Render(letter, name, message);
      var h := |letter.head|;
      var n := h + |name|;
      var m := n + |letter.middle|;
      && |html| == m + |FormatMessage(message)| + |letter.tail|
      && html[..h] == letter.head
      && html[h..n] == name
      && html[n..m] == letter.middle
      && html[m..|html| - |letter.tail|] == FormatMessage(message)
      && html[|html| - |letter.tail|..] == letter.tail
  {
    Pieces(letter.head, name, letter.middle, FormatMessage(message), letter.tail);
  }

  /** Five strings concatenated can be cut back apart at their lengths. */
  lemma Pieces(a: string, b: string, c: string, d: string, e: string)
    ensures var s := a + b + c + d + e;
      var n, m := |a| + |b|, |a| + |b| + |c|;
      && |s| == m + |d| + |e|
      && s[..|a|] == a && s[|a|..n] == b && s[n..m] == c
      && s[m..|s| - |e|] == d && s[|s| - |e|..] == e
  {
    var s := a + b + c + d + e;
    assert s == a + (b + (c + (d + e)));
  }

  /** Everything outside the two splice points is the same for all inputs: two replies
      agree on the text before the name and after the message. */
  lemma FixedText(letter: Letter, name1: string, message1: string, name2: string, message2: string)
    ensures var a, b := Render(letter, name1, message1), Render(letter, name2, message2);
      && |letter.head| <= |a| && |letter.head| <= |b| && |letter.tail| <= |a| && |letter.tail| <= |b|
      && a[..|letter.head|] == b[..|letter.head|]
      && a[|a| - |letter.tail|..] == b[|b| - |letter.tail|..]
  {
    SplicedVerbatim(letter, name1, message1);
    SplicedVerbatim(letter, name2, message2);
  }
}
