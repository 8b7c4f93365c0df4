/** The body-text pipeline of the message parser (app/lib/email/email-parser.ts):
    quoted-printable decoding, the MIME/header/tag cleaning, line normalisation,
    and the text/preview helpers.

    Each `body.replace(/pattern/g, repl)` is modelled as a left-to-right scan that, at every
    position, either takes the match that starts there (and resumes after it) or keeps one
    character: for the patterns used here the regular expression has exactly one way to match
    at a given position, so this is what the global replace does. */
module EmailBody {
  import opened Wrappers
  import opened Text
  import opened EmailTypes

  // ---------------------------------------------------------------------------
  // Quoted-printable decoding (decodeQuotedPrintable)
  // ---------------------------------------------------------------------------

  /** `[0-9A-F]`: an upper-case hexadecimal digit. */
  predicate IsUpperHex(c: char) {
    ('0' <= c <= '9') || ('A' <= c <= 'F')
  }

  function HexValue(c: char): (v: nat)
    requires IsUpperHex(c)
    ensures v < 16
  {
    if '0' <= c <= '9' then c as int - '0' as int else c as int - 'A' as int + 10
  }

  function HexDigit(d: nat): (c: char)
    requires d < 16
    ensures IsUpperHex(c) && HexValue(c) == d
  {
    if d < 10 then ('0' as int + d) as char else ('A' as int + d - 10) as char
  }

  /** `String.fromCharCode(parseInt(hex, 16))` for a two-digit escape. */
  function EscapeChar(h1: char, h2: char): char
    requires IsUpperHex(h1) && IsUpperHex(h2)
  {
    (HexValue(h1) * 16 + HexValue(h2)) as char
  }

  /** `s.replace(/pat/g, rep)` for a literal pattern and a one-character replacement. */
  function ReplaceLiteral(s: string, pat: string, rep: char): string
    requires |pat| > 0
    decreases |s|
  {
    if s == [] then []
    else if StartsWith(s, pat) then [rep] + ReplaceLiteral(s[|pat|..], pat, rep)
    else [s[0]] + ReplaceLiteral(s[1..], pat, rep)
  }

  /** The last pass, `replace(/=([0-9A-F]{2})/g, ...)`: every `=` followed by two upper-case
      hexadecimal digits becomes the character with that code; everything else is kept. */
  function DecodeEscapes(s: string): string
    decreases |s|
  {
    if |s| >= 3 && s[0] == '=' && IsUpperHex(s[1]) && IsUpperHex(s[2]) then
      [EscapeChar(s[1], s[2])] + DecodeEscapes(s[3..])
    else if s == [] then []
    else [s[0]] + DecodeEscapes(s[1..])
  }

  /** `decodeQuotedPrintable`: the four literal passes, then the general escape pass. */
  function DecodeQuotedPrintable(s: string): string {
    var a := ReplaceLiteral(s, "=0A", '\n');
    var b := ReplaceLiteral(a, "=20", ' ');
    var c := ReplaceLiteral(b, "=0D", '\r');
    var d := ReplaceLiteral(c, "=09", '\t');
    DecodeEscapes(d)
  }

  /** A literal escape pass is invisible to the general escape pass: replacing every `=XY`
      (upper-case hex) by its own character first, when that character is neither `=` nor a hex
      digit, gives the same final text as leaving it for the general pass. */
  lemma {:induction false} LiteralPassAbsorbed(s: string, pat: string, c: char)
    requires |pat| == 3 && pat[0] == '=' && IsUpperHex(pat[1]) && IsUpperHex(pat[2])
    requires c == EscapeChar(pat[1], pat[2]) && c != '=' && !IsUpperHex(c)
    ensures DecodeEscapes(ReplaceLiteral(s, pat, c)) == DecodeEscapes(s)
    decreases |s|
  {
    if s == [] {
    } else if StartsWith(s, pat) {
      var rest := ReplaceLiteral(s[3..], pat, c);
      assert ReplaceLiteral(s, pat, c) == [c] + rest;
      LiteralPassAbsorbed(s[3..], pat, c);
      assert ([c] + rest)[1..] == rest;
      assert s[1] == pat[1] && s[2] == pat[2];
    } else if s[0] != '=' {
      var rest := ReplaceLiteral(s[1..], pat, c);
      assert ReplaceLiteral(s, pat, c) == [s[0]] + rest;
      LiteralPassAbsorbed(s[1..], pat, c);
      assert ([s[0]] + rest)[1..] == rest;
    } else {
      var y := ReplaceLiteral(s[1..], pat, c);
      assert ReplaceLiteral(s, pat, c) == ['='] + y;
      assert (['='] + y)[1..] == y;
      LiteralPassAbsorbed(s[1..], pat, c);
      if |s| == 1 {
        assert y == [];
      } else if s[1] == '=' {
        // y starts with `=` or with `c`: no escape starts at the kept `=`.
        assert y[0] == '=' || y[0] == c;
      } else {
        var z := ReplaceLiteral(s[2..], pat, c);
        assert s[1..][1..] == s[2..];
        assert y == [s[1]] + z;
        if |s| == 2 {
          assert z == [];
        } else if s[2] == '=' {
          assert z[0] == '=' || z[0] == c;
          assert (['='] + y)[2] == z[0];
        } else {
          var w := ReplaceLiteral(s[3..], pat, c);
          assert s[2..][1..] == s[3..];
          assert z == [s[2]] + w;
          assert ['='] + y == ['=', s[1], s[2]] + w;
          assert (['=', s[1], s[2]] + w)[3..] == w;
          if IsUpperHex(s[1]) && IsUpperHex(s[2]) {
            LiteralPassAbsorbed(s[3..], pat, c);
          }
        }
      }
    }
  }

  /** The five passes of `decodeQuotedPrintable` decode exactly like one left-to-right pass over
      the original text: the order of the passes never matters. */
  lemma DecodeIsSinglePass(s: string)
    ensures DecodeQuotedPrintable(s) == DecodeEscapes(s)
  {
    var a := ReplaceLiteral(s, "=0A", '\n');
    var b := ReplaceLiteral(a, "=20", ' ');
    var c := ReplaceLiteral(b, "=0D", '\r');
    LiteralPassAbsorbed(c, "=09", '\t');
    LiteralPassAbsorbed(b, "=0D", '\r');
    LiteralPassAbsorbed(a, "=20", ' ');
    LiteralPassAbsorbed(s, "=0A", '\n');
  }

  /** An escape `=XY` (upper-case hex digits) starts at index `k`. */
  predicate EscapeAt(s: string, k: nat) {
    k + 2 < |s| && s[k] == '=' && IsUpperHex(s[k + 1]) && IsUpperHex(s[k + 2])
  }

  /** Text without escapes is not changed by decoding; in particular lower-case escapes such as
      `=0a` are not escapes. */
  lemma DecodeWithoutEscapes(s: string)
    requires forall k: nat :: !EscapeAt(s, k)
    ensures DecodeQuotedPrintable(s) == s
  {
    DecodeIsSinglePass(s);
    EscapesWithoutEscapes(s);
  }

  lemma {:induction false} EscapesWithoutEscapes(s: string)
    requires forall k: nat :: !EscapeAt(s, k)
    ensures DecodeEscapes(s) == s
    decreases |s|
  {
    if s != [] {
      assert !EscapeAt(s, 0);
      forall k: nat
        ensures !EscapeAt(s[1..], k)
      {
        assert !EscapeAt(s, k + 1);
      }
      EscapesWithoutEscapes(s[1..]);
    }
  }

  lemma EscapesExample()
    ensures DecodeEscapes("A=0AB=20C") == "A\nB C"
  {
    assert DecodeEscapes("C") == "C";
    assert "=20C"[3..] == "C";
    assert EscapeChar('2', '0') == ' ';
    assert DecodeEscapes("=20C") == " C";
    assert "B=20C"[1..] == "=20C";
    assert DecodeEscapes("B=20C") == "B C";
    assert "=0AB=20C"[3..] == "B=20C";
    assert EscapeChar('0', 'A') == '\n';
    assert DecodeEscapes("=0AB=20C") == "\nB C";
    assert "A=0AB=20C"[1..] == "=0AB=20C";
  }

  /** The example of the design: `A=0AB=20C` decodes to `A`, newline, `B C`. */
  lemma DecodeExample()
    ensures DecodeQuotedPrintable("A=0AB=20C") == "A\nB C"
  {
    DecodeIsSinglePass("A=0AB=20C");
    EscapesExample();
  }

  /** A lower-case escape is left as it is. */
  lemma LowerCaseEscapeKept()
    ensures DecodeQuotedPrintable("=0a") == "=0a"
  {
    forall k: nat
      ensures !EscapeAt("=0a", k)
    {
      if k == 0 {
        assert !IsUpperHex('a');
      }
    }
    DecodeWithoutEscapes("=0a");
  }

  /** Quoted-printable encoding of text whose characters are all below 256:
      every character as `=` and two upper-case hex digits. */
  function EncodeQuotedPrintable(s: string): string
    requires forall k :: 0 <= k < |s| ==> s[k] as int < 256
    decreases |s|
  {
    if s == [] then []
    else ['=', HexDigit(s[0] as int / 16), HexDigit(s[0] as int % 16)] + EncodeQuotedPrintable(s[1..])
  }

  /** Decoding undoes encoding. */
  lemma {:induction false} DecodeEncode(s: string)
    requires forall k :: 0 <= k < |s| ==> s[k] as int < 256
    ensures DecodeQuotedPrintable(EncodeQuotedPrintable(s)) == s
  {
    DecodeIsSinglePass(EncodeQuotedPrintable(s));
    EscapesOfEncoding(s);
  }

  lemma {:induction false} EscapesOfEncoding(s: string)
    requires forall k :: 0 <= k < |s| ==> s[k] as int < 256
    ensures DecodeEscapes(EncodeQuotedPrintable(s)) == s
    decreases |s|
  {
    if s != [] {
      var e := EncodeQuotedPrintable(s);
      var tail := EncodeQuotedPrintable(s[1..]);
      assert e[3..] == tail;
      EscapesOfEncoding(s[1..]);
      assert EscapeChar(e[1], e[2]) == s[0];
      assert s == [s[0]] + s[1..];
    }
  }

  /** The parser decodes only a body that contains `=0A` or `=20`. */
  predicate LooksQuotedPrintable(body: string) {
    Contains(body, "=0A") || Contains(body, "=20")
  }

  // ---------------------------------------------------------------------------
  // Pattern scanners for cleanEmailBody
  // ---------------------------------------------------------------------------

  /** `[a-zA-Z0-9_]`. */
  predicate IsWordChar(c: char) {
    ('a' <= c <= 'z') || ('A' <= c <= 'Z') || ('0' <= c <= '9') || c == '_'
  }

  /** The regular expressions `cleanEmailBody` removes. */
  datatype Pattern =
    | MimeSection          // --word\r?\nContent-Type: ...\r?\nContent-Transfer-Encoding: ...\r?\n\r?\n, then lazily up to the next --word or the end
    | Boundary             // --[a-zA-Z0-9_]+
    | HeaderLine(prefix: string)  // prefix[^\r\n]+\r?\n
    | Tag                   // <[^>]*>

  /** End of the longest run of word characters from `i`. */
  function WordEnd(s: string, i: nat): (j: nat)
    requires i <= |s|
    ensures i <= j <= |s|
    decreases |s| - i
  {
    if i < |s| && IsWordChar(s[i]) then WordEnd(s, i + 1) else i
  }

  /** End of the longest run of characters other than carriage return and line feed. */
  function LineEnd(s: string, i: nat): (j: nat)
    requires i <= |s|
    ensures i <= j <= |s|
    decreases |s| - i
  {
    if i < |s| && s[i] != '\r' && s[i] != '\n' then LineEnd(s, i + 1) else i
  }

  /** Index of the first `>` at or after `i`, or `|s|`. */
  function CloseAngle(s: string, i: nat): (j: nat)
    requires i <= |s|
    ensures i <= j <= |s|
    ensures forall k :: i <= k < j ==> s[k] != '>'
    ensures j < |s| ==> s[j] == '>'
    decreases |s| - i
  {
    if i < |s| && s[i] != '>' then CloseAngle(s, i + 1) else i
  }

  /** `--[a-zA-Z0-9_]+` at `i`: the word run is taken whole. */
  function BoundaryAt(s: string, i: nat): (r: Option<nat>)
    requires i <= |s|
    ensures r.Some? ==> i < r.value <= |s|
  {
    if i + 2 < |s| && s[i] == '-' && s[i + 1] == '-' && IsWordChar(s[i + 2]) then Some(WordEnd(s, i + 2))
    else None
  }

  /** `\r?\n` at `i`. */
  function NewlineAt(s: string, i: nat): (r: Option<nat>)
    requires i <= |s|
    ensures r.Some? ==> i < r.value <= |s|
  {
    if i + 1 < |s| && s[i] == '\r' && s[i + 1] == '\n' then Some(i + 2)
    else if i < |s| && s[i] == '\n' then Some(i + 1)
    else None
  }

  /** `prefix[^\r\n]+\r?\n` at `i`. */
  function HeaderLineAt(s: string, prefix: string, i: nat): (r: Option<nat>)
    requires i <= |s|
    ensures r.Some? ==> i < r.value <= |s|
  {
    if i + |prefix| <= |s| && s[i..i + |prefix|] == prefix then
      var j := LineEnd(s, i + |prefix|);
      if j > i + |prefix| then NewlineAt(s, j) else None
    else None
  }

  /** The first position at or after `k` where a boundary starts, or the end (the lazy
      `[\s\S]*?` followed by the lookahead `(?=--[a-zA-Z0-9_]+|$)`). */
  function NextBoundaryOrEnd(s: string, k: nat): (j: nat)
    requires k <= |s|
    ensures k <= j <= |s|
    decreases |s| - k
  {
    if k == |s| || BoundaryAt(s, k).Some? then k else NextBoundaryOrEnd(s, k + 1)
  }

  function MimeSectionAt(s: string, i: nat): (r: Option<nat>)
    requires i <= |s|
    ensures r.Some? ==> i < r.value <= |s|
  {
    match BoundaryAt(s, i)
    case None => None
    case Some(b) =>
      match NewlineAt(s, b)
      case None => None
      case Some(n1) =>
        match HeaderLineAt(s, "Content-Type: ", n1)
        case None => None
        case Some(h1) =>
          match HeaderLineAt(s, "Content-Transfer-Encoding: ", h1)
          case None => None
          case Some(h2) =>
            match NewlineAt(s, h2)
            case None => None
            case Some(n2) => Some(NextBoundaryOrEnd(s, n2))
  }

  /** `<[^>]*>` at `i`: from `<` to the first `>` after it. */
  function TagAt(s: string, i: nat): (r: Option<nat>)
    requires i <= |s|
    ensures r.Some? ==> i < r.value <= |s|
    ensures r.None? && i < |s| && s[i] == '<' ==> '>' !in s[i + 1..]
  {
    if i < |s| && s[i] == '<' then
      var j := CloseAngle(s, i + 1);
      if j < |s| then Some(j + 1)
      else None
    else None
  }

  /** Where a match of `p` that starts at `i` ends, if one does. */
  function MatchAt(p: Pattern, s: string, i: nat): (r: Option<nat>)
    requires i <= |s|
    ensures r.Some? ==> i < r.value <= |s|
  {
    match p
    case MimeSection => MimeSectionAt(s, i)
    case Boundary => BoundaryAt(s, i)
    case HeaderLine(prefix) => HeaderLineAt(s, prefix, i)
    case Tag => TagAt(s, i)
  }

  /** `s.slice(i).replace(/p/g, '')`. */
  function RemoveFrom(p: Pattern, s: string, i: nat): string
    requires i <= |s|
    decreases |s| - i
  {
    if i == |s| then []
    else match MatchAt(p, s, i)
      case Some(e) => RemoveFrom(p, s, e)
      case None => [s[i]] + RemoveFrom(p, s, i + 1)
  }

  /** `s.replace(/p/g, '')`. */
  function RemoveAll(p: Pattern, s: string): string {
    RemoveFrom(p, s, 0)
  }

  /** Removing matches only deletes characters. */
  lemma {:induction false} RemoveFromSubseq(p: Pattern, s: string, i: nat)
    requires i <= |s|
    ensures IsSubseq(RemoveFrom(p, s, i), s[i..])
    decreases |s| - i
  {
    if i < |s| {
      var m := MatchAt(p, s, i);
      if m.Some? {
        RemoveFromSubseq(p, s, m.value);
        DroppedMatch(p, s, i, m.value);
      } else {
        RemoveFromSubseq(p, s, i + 1);
        KeptChar(p, s, i);
      }
    }
  }

  /** A match is deleted whole. */
  lemma DroppedMatch(p: Pattern, s: string, i: nat, e: nat)
    requires i < e <= |s| && MatchAt(p, s, i) == Some(e)
    requires IsSubseq(RemoveFrom(p, s, e), s[e..])
    ensures IsSubseq(RemoveFrom(p, s, i), s[i..])
  {
    assert RemoveFrom(p, s, i) == RemoveFrom(p, s, e);
    SubseqPrefix(RemoveFrom(p, s, e), s[e..], s[i..e]);
    assert s[i..e] + s[e..] == s[i..];
  }

  /** A character where no match starts is kept. */
  lemma KeptChar(p: Pattern, s: string, i: nat)
    requires i < |s| && MatchAt(p, s, i).None?
    requires IsSubseq(RemoveFrom(p, s, i + 1), s[i + 1..])
    ensures IsSubseq(RemoveFrom(p, s, i), s[i..])
  {
    assert RemoveFrom(p, s, i) == [s[i]] + RemoveFrom(p, s, i + 1);
    SubseqCons(s[i], RemoveFrom(p, s, i + 1), s[i + 1..]);
    assert [s[i]] + s[i + 1..] == s[i..];
  }

  lemma RemoveAllSubseq(p: Pattern, s: string)
    ensures IsSubseq(RemoveAll(p, s), s)
  {
    RemoveFromSubseq(p, s, 0);
    assert s[0..] == s;
  }

  // ---------------------------------------------------------------------------
  // Absence of tags
  // ---------------------------------------------------------------------------

  /** No `<` is followed, anywhere later, by a `>`: no `<...>` substring is left. */
  predicate Tagless(s: string)
    decreases |s|
  {
    s == [] || ((s[0] != '<' || '>' !in s[1..]) && Tagless(s[1..]))
  }

  /** `Tagless` says exactly that no `<` comes before a `>`. */
  lemma {:induction false} TaglessMeans(s: string)
    ensures Tagless(s) <==> forall i, j :: 0 <= i < j < |s| && s[i] == '<' ==> s[j] != '>'
    decreases |s|
  {
    if s != [] {
      TaglessMeans(s[1..]);
      assert forall k :: 0 <= k < |s[1..]| ==> s[1..][k] == s[k + 1];
      if !Tagless(s) {
        if s[0] == '<' && '>' in s[1..] {
          var j :| 0 <= j < |s[1..]| && s[1..][j] == '>';
          assert s[j + 1] == '>';
        }
      }
    }
  }

  /** Deleting characters from a tag-free string leaves it tag-free. */
  lemma {:induction false} TaglessSubseq(a: string, b: string)
    requires IsSubseq(a, b) && Tagless(b)
    ensures Tagless(a)
    decreases |b|
  {
    if b != [] {
      if IsSubseq(a, b[1..]) {
        TaglessSubseq(a, b[1..]);
      } else {
        TaglessSubseq(a[1..], b[1..]);
        if a[0] == '<' && '>' in a[1..] {
          SubseqChars(a[1..], b[1..], '>');
        }
      }
    }
  }

  /** After `replace(/<[^>]*>/g, '')` no tag survives. */
  lemma {:induction false} RemoveTagsFromTagless(s: string, i: nat)
    requires i <= |s|
    ensures Tagless(RemoveFrom(Tag, s, i))
    decreases |s| - i
  {
    if i < |s| {
      match TagAt(s, i)
      case Some(e) =>
        RemoveTagsFromTagless(s, e);
      case None =>
        var rest := RemoveFrom(Tag, s, i + 1);
        RemoveTagsFromTagless(s, i + 1);
        assert ([s[i]] + rest)[1..] == rest;
        if s[i] == '<' && '>' in rest {
          RemoveFromSubseq(Tag, s, i + 1);
          SubseqChars(rest, s[i + 1..], '>');
        }
    }
  }

  /** The tag-stripping step, on its own and on every string. */
  function StripTags(s: string): (r: string)
    ensures Tagless(r)
    ensures IsSubseq(r, s)
  {
    RemoveTagsFromTagless(s, 0);
    RemoveAllSubseq(Tag, s);
    RemoveAll(Tag, s)
  }

  // ---------------------------------------------------------------------------
  // Line normalisation
  // ---------------------------------------------------------------------------

  /** `.map(line => line.trim()).filter(line => line.length > 0)`. */
  function KeepLines(lines: seq<string>): (r: seq<string>)
    decreases |lines|
  {
    if lines == [] then []
    else
      var t := Trim(lines[0]);
      (if |t| > 0 then [t] else []) + KeepLines(lines[1..])
  }

  /** `.split('\n').map(trim).filter(nonEmpty).join('\n').trim()`. */
  function NormalizeLines(s: string): string {
    Trim(Join(KeepLines(Split(s, '\n')), '\n'))
  }

  /** A line as normalisation keeps it: non-empty, trimmed, free of line feeds. */
  predicate GoodLine(l: string) {
    l != [] && IsTrimmed(l) && '\n' !in l
  }

  predicate AllGood(lines: seq<string>) {
    forall k :: 0 <= k < |lines| ==> GoodLine(lines[k])
  }

  predicate NoLineFeeds(lines: seq<string>) {
    forall k :: 0 <= k < |lines| ==> '\n' !in lines[k]
  }

  /** Every kept line is non-empty, trimmed and free of line feeds. */
  lemma {:induction false} KeepLinesShape(lines: seq<string>)
    requires NoLineFeeds(lines)
    ensures AllGood(KeepLines(lines))
    decreases |lines|
  {
    if lines != [] {
      NoLineFeedsTail(lines);
      KeepLinesShape(lines[1..]);
      TrimKeepsNoNewline(lines[0]);
      AllGoodConcat(if |Trim(lines[0])| > 0 then [Trim(lines[0])] else [], KeepLines(lines[1..]));
    }
  }

  lemma NoLineFeedsTail(lines: seq<string>)
    requires lines != [] && NoLineFeeds(lines)
    ensures NoLineFeeds(lines[1..])
  {
    forall k | 0 <= k < |lines| - 1
      ensures '\n' !in lines[1..][k]
    {
      assert lines[1..][k] == lines[k + 1];
    }
  }

  lemma AllGoodConcat(a: seq<string>, b: seq<string>)
    requires AllGood(a) && AllGood(b)
    ensures AllGood(a + b)
  {
    forall k | 0 <= k < |a + b|
      ensures GoodLine((a + b)[k])
    {
      if k >= |a| {
        assert (a + b)[k] == b[k - |a|];
      }
    }
  }

  /** Trimming a line cannot bring in a line feed. */
  lemma TrimKeepsNoNewline(l: string)
    requires '\n' !in l
    ensures IsTrimmed(Trim(l)) && '\n' !in Trim(l)
  {
    TrimSubseq(l);
    if '\n' in Trim(l) {
      SubseqChars(Trim(l), l, '\n');
    }
  }

  /** Joining the kept lines only deletes characters of the joined original lines. */
  lemma {:induction false} KeepLinesSubseq(lines: seq<string>)
    ensures IsSubseq(Join(KeepLines(lines), '\n'), Join(lines, '\n'))
    decreases |lines|
  {
    if lines == [] {
      SubseqRefl<char>([]);
    } else if |lines| == 1 {
      KeepLinesSingle(lines);
    } else {
      KeepLinesSubseq(lines[1..]);
      TrimSubseq(lines[0]);
      KeptJoinStep(Trim(lines[0]), lines[0], KeepLines(lines[1..]), Join(lines[1..], '\n'));
    }
  }

  lemma KeepLinesSingle(lines: seq<string>)
    requires |lines| == 1
    ensures IsSubseq(Join(KeepLines(lines), '\n'), Join(lines, '\n'))
  {
    var t := Trim(lines[0]);
    TrimSubseq(lines[0]);
    assert lines[1..] == [];
    if |t| > 0 {
      assert KeepLines(lines) == [t];
    } else {
      assert KeepLines(lines) == [];
      SubseqEmpty(lines[0]);
    }
  }

  lemma KeptJoinStep(t: string, l: string, k: seq<string>, rest: string)
    requires IsSubseq(t, l) && IsSubseq(Join(k, '\n'), rest)
    ensures IsSubseq(Join((if |t| > 0 then [t] else []) + k, '\n'), l + ['\n'] + rest)
  {
    if |t| == 0 {
      assert [] + k == k;
      SubseqPrefix(Join(k, '\n'), rest, l + ['\n']);
    } else if k == [] {
      assert [t] + k == [t];
      SubseqExtend(t, l, ['\n'] + rest);
      assert l + (['\n'] + rest) == l + ['\n'] + rest;
    } else {
      JoinCons(t, k);
      SubseqAround(t, l, Join(k, '\n'), rest);
    }
  }

  lemma SubseqAround(a: string, b: string, c: string, d: string)
    requires IsSubseq(a, b) && IsSubseq(c, d)
    ensures IsSubseq(a + ['\n'] + c, b + ['\n'] + d)
  {
    SubseqRefl(['\n']);
    SubseqConcat(a, b, ['\n'], ['\n']);
    SubseqConcat(a + ['\n'], b + ['\n'], c, d);
  }

  lemma JoinCons(l: string, more: seq<string>)
    requires more != []
    ensures Join([l] + more, '\n') == l + ['\n'] + Join(more, '\n')
  {
    assert ([l] + more)[1..] == more;
  }

  /** A join of non-empty trimmed lines starts and ends with a non-space character. */
  lemma {:induction false} JoinOfTrimmedLines(lines: seq<string>)
    requires forall k :: 0 <= k < |lines| ==> lines[k] != [] && IsTrimmed(lines[k])
    ensures IsTrimmed(Join(lines, '\n'))
    ensures |lines| > 0 ==> Join(lines, '\n') != []
    decreases |lines|
  {
    if |lines| > 1 {
      JoinOfTrimmedLines(lines[1..]);
      var rest := Join(lines[1..], '\n');
      var j := lines[0] + ['\n'] + rest;
      assert j[0] == lines[0][0];
      assert j[|j| - 1] == rest[|rest| - 1];
    }
  }

  /** What line normalisation promises: the text is trimmed, it is made of non-empty trimmed
      lines, and it only deletes characters of its input. */
  lemma NormalizeLinesShape(s: string)
    ensures IsTrimmed(NormalizeLines(s))
    ensures NormalizeLines(s) != [] ==>
      forall k :: 0 <= k < |Split(NormalizeLines(s), '\n')| ==>
        Split(NormalizeLines(s), '\n')[k] != [] && IsTrimmed(Split(NormalizeLines(s), '\n')[k])
    ensures IsSubseq(NormalizeLines(s), s)
  {
    var lines := Split(s, '\n');
    var kept := KeepLines(lines);
    KeepLinesShape(lines);
    JoinOfGoodLines(kept);
    assert NormalizeLines(s) == Join(kept, '\n');
    KeepLinesSubseq(lines);
    JoinSplit(s, '\n');
  }

  /** Joining good lines gives trimmed text that trimming leaves alone and that splits back
      into those lines. */
  lemma JoinOfGoodLines(kept: seq<string>)
    requires AllGood(kept)
    ensures IsTrimmed(Join(kept, '\n')) && Trim(Join(kept, '\n')) == Join(kept, '\n')
    ensures kept != [] ==> Split(Join(kept, '\n'), '\n') == kept
  {
    JoinOfTrimmedLines(kept);
    TrimOfTrimmed(Join(kept, '\n'));
    if kept != [] {
      SplitJoin(kept, '\n');
    }
  }

  // ---------------------------------------------------------------------------
  // cleanEmailBody
  // ---------------------------------------------------------------------------

  /** The removals of `cleanEmailBody`, in order, before line normalisation. */
  function StripMarkup(body: string): string {
    var b1 := RemoveAll(MimeSection, body);
    var b2 := RemoveAll(Boundary, b1);
    var b3 := RemoveAll(HeaderLine("Content-Type: "), b2);
    var b4 := RemoveAll(HeaderLine("Content-Transfer-Encoding: "), b3);
    var b5 := RemoveAll(HeaderLine("charset="), b4);
    var b6 := RemoveAll(HeaderLine("meta http-equiv="), b5);
    StripTags(b6)
  }

  /** The value `cleanEmailBody` returns. */
  function CleanedBody(body: string): string {
    NormalizeLines(StripMarkup(body))
  }

  /** The cleaned body has no tag, is trimmed, consists of non-empty trimmed lines, and is
      obtained from the input by deleting characters. */
  lemma CleanedBodyShape(body: string)
    ensures Tagless(CleanedBody(body))
    ensures IsTrimmed(CleanedBody(body))
    ensures var r := CleanedBody(body);
      r != [] ==> forall k :: 0 <= k < |Split(r, '\n')| ==> Split(r, '\n')[k] != [] && IsTrimmed(Split(r, '\n')[k])
    ensures IsSubseq(CleanedBody(body), body)
  {
    var b1 := RemoveAll(MimeSection, body);
    var b2 := RemoveAll(Boundary, b1);
    var b3 := RemoveAll(HeaderLine("Content-Type: "), b2);
    var b4 := RemoveAll(HeaderLine("Content-Transfer-Encoding: "), b3);
    var b5 := RemoveAll(HeaderLine("charset="), b4);
    var b6 := RemoveAll(HeaderLine("meta http-equiv="), b5);
    var b7 := StripTags(b6);
    RemoveAllSubseq(MimeSection, body);
    RemoveAllSubseq(Boundary, b1);
    RemoveAllSubseq(HeaderLine("Content-Type: "), b2);
    RemoveAllSubseq(HeaderLine("Content-Transfer-Encoding: "), b3);
    RemoveAllSubseq(HeaderLine("charset="), b4);
    RemoveAllSubseq(HeaderLine("meta http-equiv="), b5);
    SubseqTrans(b2, b1, body);
    SubseqTrans(b3, b2, body);
    SubseqTrans(b4, b3, body);
    SubseqTrans(b5, b4, body);
    SubseqTrans(b6, b5, body);
    SubseqTrans(b7, b6, body);
    NormalizeLinesShape(b7);
    SubseqTrans(NormalizeLines(b7), b7, body);
    TaglessSubseq(NormalizeLines(b7), b7);
  }

  /** `cleanEmailBody`, reassigning `body` step by step as the source does. */
  method CleanEmailBody(body: string) returns (r: string)
    ensures r == CleanedBody(body)
    ensures Tagless(r) && IsTrimmed(r)
    ensures r != [] ==> forall k :: 0 <= k < |Split(r, '\n')| ==> Split(r, '\n')[k] != [] && IsTrimmed(Split(r, '\n')[k])
    ensures IsSubseq(r, body)
  {
    var b := body;
    b := RemoveAll(MimeSection, b);
    b := RemoveAll(Boundary, b);
    b := RemoveAll(HeaderLine("Content-Type: "), b);
    b := RemoveAll(HeaderLine("Content-Transfer-Encoding: "), b);
    b := RemoveAll(HeaderLine("charset="), b);
    b := RemoveAll(HeaderLine("meta http-equiv="), b);
    b := StripTags(b);
    r := NormalizeLines(b);
    CleanedBodyShape(body);
  }

  // ---------------------------------------------------------------------------
  // extractTextContent and getEmailPreview
  // ---------------------------------------------------------------------------

  const PreviewLength := 200

  /** `extractTextContent`: the trimmed `text` when it is non-empty, else the tag-stripped,
      trimmed `html` when that is non-empty, else the empty string. */
  function ExtractTextContent(email: EmailMessage): (r: string)
    ensures Truthy(email.text) ==> r == Trim(email.text.value)
    ensures !Truthy(email.text) && Truthy(email.html) ==> r == Trim(StripTags(email.html.value))
    ensures !Truthy(email.text) && !Truthy(email.html) ==> r == ""
    ensures IsTrimmed(r)
    ensures Truthy(email.text) ==> IsSubseq(r, email.text.value)
    ensures !Truthy(email.text) ==> Tagless(r)
    ensures !Truthy(email.text) && Truthy(email.html) ==> IsSubseq(r, email.html.value)
  {
    if Truthy(email.text) then
      TrimSubseq(email.text.value);
      Trim(email.text.value)
    else if Truthy(email.html) then
      var h := StripTags(email.html.value);
      TrimSubseq(h);
      TaglessSubseq(Trim(h), h);
      SubseqTrans(Trim(h), h, email.html.value);
      Trim(h)
    else ""
  }

  /** Extracting again from a message whose text is an earlier non-empty extraction gives that
      extraction back. */
  lemma ExtractTextStable(email: EmailMessage)
    ensures var t := ExtractTextContent(email);
      t != "" ==> ExtractTextContent(email.(text := Some(t))) == t
  {
    var t := ExtractTextContent(email);
    if t != "" {
      TrimOfTrimmed(t);
    }
  }

  /** `getEmailPreview`: the first 200 characters and `...` when the text is longer than that,
      else the text itself. */
  function GetEmailPreview(email: EmailMessage): (r: string)
    ensures var t := ExtractTextContent(email);
      && (|t| > PreviewLength ==> |r| == PreviewLength + 3 && r[..PreviewLength] == t[..PreviewLength] && r[PreviewLength..] == "...")
      && (|t| <= PreviewLength ==> r == t)
    ensures |r| <= PreviewLength + 3
  {
    var t := ExtractTextContent(email);
    if |t| > PreviewLength then t[..PreviewLength] + "..." else t
  }
}
