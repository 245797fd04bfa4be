/**
 * The site's HTML escaper (`escapeHTML` in src/js/app.js) and the event modal's
 * description transform (escape, then turn every line feed into `<br>`).
 *
 * The escaper replaces each of the five characters `& < > " '` by a character
 * reference in the sense of section 13.1.4 "Character references" of the HTML
 * Living Standard: `&amp;`, `&lt;`, `&gt;`, `&quot;` and the decimal numeric
 * reference `&#039;`. Every other character is copied unchanged, in order.
 */
module HtmlEscape {
  import opened Wrappers

  /** The characters the escaper replaces. */
  predicate IsSpecial(c: char) {
    c == '&' || c == '<' || c == '>' || c == '"' || c == '\''
  }

  /** A string in which the escaper has nothing to replace. */
  predicate IsSafe(s: string) {
    forall i :: 0 <= i < |s| ==> !IsSpecial(s[i])
  }

  /** Characters that would start a tag or end an attribute value if left raw. */
  predicate IsRawMarkup(c: char) {
    c == '<' || c == '>' || c == '"' || c == '\''
  }

  /** The replacement the escaper's lookup table gives one matched character. */
  function EscapeChar(c: char): string {
    match c
    case '&' => "&amp;"
    case '<' => "&lt;"
    case '>' => "&gt;"
    case '"' => "&quot;"
    case '\'' => "&#039;"
    case _ => [c]
  }

  /**
   * The global regular-expression replacement: every character mapped, left to
   * right. The output never contains a raw `<`, `>`, `"` or `'`.
   */
  function Escape(s: string): (r: string)
    ensures forall i :: 0 <= i < |r| ==> !IsRawMarkup(r[i])
  {
    if s == [] then [] else EscapeChar(s[0]) + Escape(s[1..])
  }

  /**
   * `escapeHTML(str)`: a falsy argument (here `null`/`undefined`, modelled as
   * `None`, or the empty string) gives the empty string; anything else is escaped.
   */
  function EscapeHtml(str: Option<string>): (r: string)
    ensures str == None || str == Some("") ==> r == ""
    ensures str.Some? ==> r == Escape(str.value)
  {
    match str
    case None => ""
    case Some(s) => if s == "" then "" else Escape(s)
  }

  /**
   * The character reference at the start of `t`, if it begins with one of the
   * five the escaper emits: the character it stands for and its length.
   */
  function DecodeReference(t: string): (r: Option<(char, nat)>)
    ensures r.Some? ==> 1 <= r.value.1 <= |t|
  {
    if |t| >= 5 && t[..5] == "&amp;" then Some(('&', 5))
    else if |t| >= 4 && t[..4] == "&lt;" then Some(('<', 4))
    else if |t| >= 4 && t[..4] == "&gt;" then Some(('>', 4))
    else if |t| >= 6 && t[..6] == "&quot;" then Some(('"', 6))
    else if |t| >= 6 && t[..6] == "&#039;" then Some(('\'', 6))
    else None
  }

  /**
   * Decoding of the five character references the escaper emits, as an HTML
   * parser reads them back; any other character stands for itself.
   */
  function Unescape(t: string): string
    decreases |t|
  {
    if t == [] then []
    else match DecodeReference(t)
      case Some((c, n)) => [c] + Unescape(t[n..])
      case None => [t[0]] + Unescape(t[1..])
  }

  /** Escaping works character by character: it distributes over concatenation. */
  lemma {:induction false} EscapeAppend(a: string, b: string)
    ensures Escape(a + b) == Escape(a) + Escape(b)
  {
    if a == [] {
      assert a + b == b;
    } else {
      assert (a + b)[0] == a[0];
      assert (a + b)[1..] == a[1..] + b;
      EscapeAppend(a[1..], b);
    }
  }

  /** The output is never shorter than the input, and strictly longer when the input holds a special character. */
  lemma {:induction false} EscapeLength(s: string)
    ensures |Escape(s)| >= |s|
    ensures !IsSafe(s) ==> |Escape(s)| > |s|
  {
    if s != [] {
      EscapeLength(s[1..]);
      if !IsSafe(s) && !IsSpecial(s[0]) {
        assert !IsSafe(s[1..]) by {
          var i :| 0 <= i < |s| && IsSpecial(s[i]);
          assert s[1..][i - 1] == s[i];
        }
      }
    }
  }

  /**
   * The escaper returns the empty string exactly for a missing or empty
   * argument, so `escapeHTML(x) || fallback` picks the fallback in just those cases.
   */
  lemma EscapeHtmlEmptyIff(str: Option<string>)
    ensures EscapeHtml(str) == "" <==> str == None || str == Some("")
  {
  }

  /** The escaper leaves a string unchanged exactly when it holds none of the five special characters. */
  lemma {:induction false} EscapeIdentityIffSafe(s: string)
    ensures Escape(s) == s <==> IsSafe(s)
  {
    EscapeLength(s);
    if IsSafe(s) && s != [] {
      assert IsSafe(s[1..]) by {
        forall i | 0 <= i < |s[1..]| ensures !IsSpecial(s[1..][i]) {
          assert s[1..][i] == s[i + 1];
        }
      }
      EscapeIdentityIffSafe(s[1..]);
      assert s == [s[0]] + s[1..];
    }
  }

  /** An escaped character at the front of a string is read back as one reference; an unescaped one is not a reference. */
  lemma DecodeEscapedChar(c: char, tail: string)
    ensures DecodeReference(EscapeChar(c) + tail) ==
      if IsSpecial(c) then Some((c, |EscapeChar(c)|)) else None
  {
    var t := EscapeChar(c) + tail;
    if c == '&' {
      assert t[..5] == "&amp;";
    } else if c == '<' {
      assert t[..4] == "&lt;";
      assert t[1] == 'l';
    } else if c == '>' {
      assert t[..4] == "&gt;";
      assert t[1] == 'g';
    } else if c == '"' {
      assert t[..6] == "&quot;";
      assert t[1] == 'q';
    } else if c == '\'' {
      assert t[..6] == "&#039;";
      assert t[1] == '#';
    } else {
      assert t[0] == c;
    }
  }

  /** Decoding one escaped character followed by anything gives that character, then the decoding of the rest. */
  lemma UnescapeChar(c: char, tail: string)
    ensures Unescape(EscapeChar(c) + tail) == [c] + Unescape(tail)
  {
    var t := EscapeChar(c) + tail;
    DecodeEscapedChar(c, tail);
    if IsSpecial(c) {
      assert t[|EscapeChar(c)|..] == tail;
    } else {
      assert t[0] == c && t[1..] == tail;
    }
  }

  /** Decoding the escaper's output gives back the original text: no information is lost. */
  lemma {:induction false} UnescapeEscape(s: string)
    ensures Unescape(Escape(s)) == s
  {
    if s != [] {
      UnescapeEscape(s[1..]);
      UnescapeChar(s[0], Escape(s[1..]));
      assert s == [s[0]] + s[1..];
    }
  }

  /** Escaping a string that holds a special character leaves one in the output (at least an `&`). */
  lemma {:induction false} EscapeKeepsUnsafe(s: string)
    requires !IsSafe(s)
    ensures !IsSafe(Escape(s))
  {
    var e := Escape(s);
    if IsSpecial(s[0]) {
      assert e[0] == '&';
    } else {
      assert !IsSafe(s[1..]) by {
        var i :| 0 <= i < |s| && IsSpecial(s[i]);
        assert s[1..][i - 1] == s[i];
      }
      EscapeKeepsUnsafe(s[1..]);
      var j :| 0 <= j < |Escape(s[1..])| && IsSpecial(Escape(s[1..])[j]);
      assert e[j + 1] == Escape(s[1..])[j];
    }
  }

  /**
   * Escaping is idempotent exactly on the strings it leaves alone: as soon as
   * the input holds a special character, a second pass escapes the `&` the
   * first pass introduced.
   */
  lemma EscapeIdempotentIffSafe(s: string)
    ensures Escape(Escape(s)) == Escape(s) <==> IsSafe(s)
  {
    EscapeIdentityIffSafe(s);
    EscapeIdentityIffSafe(Escape(s));
    if !IsSafe(s) {
      EscapeKeepsUnsafe(s);
    }
  }

  /** The regular-expression replacement of every line feed by `<br>`: no line feed is left. */
  function NewlinesToBr(s: string): (r: string)
    ensures forall i :: 0 <= i < |r| ==> r[i] != '\n'
  {
    if s == [] then []
    else (if s[0] == '\n' then "<br>" else [s[0]]) + NewlinesToBr(s[1..])
  }

  /**
   * The event modal's description: escape, then replace every line feed by
   * `<br>`. The result is the per-character map `ModalChars` of the text (a
   * missing description reads as empty), and the only markup in it is `<br>`.
   */
  function ModalDescription(description: Option<string>): (r: string)
    ensures r == ModalChars(description.GetOr(""))
    ensures OnlyBrMarkup(r)
  {
    ModalDescriptionPerChar(description.GetOr(""));
    ModalMarkupIsOnlyBr(description.GetOr(""));
    NewlinesToBr(EscapeHtml(description))
  }

  /** What the modal shows for one character of the description. */
  function ModalChar(c: char): string {
    if c == '\n' then "<br>" else EscapeChar(c)
  }

  /** The modal transform, one character at a time. */
  function ModalChars(s: string): string {
    if s == [] then [] else ModalChar(s[0]) + ModalChars(s[1..])
  }

  lemma {:induction false} NewlinesToBrAppend(a: string, b: string)
    ensures NewlinesToBr(a + b) == NewlinesToBr(a) + NewlinesToBr(b)
  {
    if a == [] {
      assert a + b == b;
    } else {
      assert (a + b)[0] == a[0];
      assert (a + b)[1..] == a[1..] + b;
      NewlinesToBrAppend(a[1..], b);
    }
  }

  /** One character through the escaper and then the `<br>` replacement. */
  lemma ModalCharStep(c: char)
    ensures NewlinesToBr(EscapeChar(c)) == ModalChar(c)
  {
    var e := EscapeChar(c);
    if IsSpecial(c) {
      assert forall i :: 0 <= i < |e| ==> e[i] != '\n';
      NewlinesToBrSafe(e);
    } else {
      assert e == [c];
      assert NewlinesToBr([c]) == (if c == '\n' then "<br>" else [c]) + NewlinesToBr([]);
    }
  }

  /**
   * Escaping and then replacing line feeds is the single per-character map
   * that sends a line feed to `<br>` and a special character to its reference.
   */
  lemma {:induction false} ModalDescriptionPerChar(s: string)
    ensures NewlinesToBr(Escape(s)) == ModalChars(s)
  {
    if s != [] {
      NewlinesToBrAppend(EscapeChar(s[0]), Escape(s[1..]));
      ModalDescriptionPerChar(s[1..]);
      ModalCharStep(s[0]);
    }
  }

  /** A string without line feeds is left alone by the `<br>` replacement. */
  lemma {:induction false} NewlinesToBrSafe(s: string)
    requires forall i :: 0 <= i < |s| ==> s[i] != '\n'
    ensures NewlinesToBr(s) == s
  {
    if s != [] {
      NewlinesToBrSafe(s[1..]);
      assert s == [s[0]] + s[1..];
    }
  }

  /** `r` holds a `<br>` tag starting at index `i`. */
  predicate BrAt(r: string, i: int) {
    0 <= i && i + 4 <= |r| && r[i] == '<' && r[i + 1] == 'b' && r[i + 2] == 'r' && r[i + 3] == '>'
  }

  /**
   * The markup a string may hold once it is in the modal: no line feed, every
   * `<` begins a `<br>` tag, and every `>` ends one.
   */
  predicate OnlyBrMarkup(r: string) {
    && (forall i :: 0 <= i < |r| ==> r[i] != '\n')
    && (forall i :: 0 <= i < |r| && r[i] == '<' ==> BrAt(r, i))
    && (forall i :: 0 <= i < |r| && r[i] == '>' ==> BrAt(r, i - 3))
  }

  lemma OnlyBrMarkupAppend(a: string, b: string)
    requires OnlyBrMarkup(a) && OnlyBrMarkup(b)
    ensures OnlyBrMarkup(a + b)
  {
  }

  /** The modal description contains no line feed, and the only markup in it is `<br>`. */
  lemma {:induction false} ModalMarkupIsOnlyBr(s: string)
    ensures OnlyBrMarkup(ModalChars(s))
  {
    if s != [] {
      ModalMarkupIsOnlyBr(s[1..]);
      var head := ModalChar(s[0]);
      assert OnlyBrMarkup(head) by {
        if s[0] == '\n' {
          assert head == "<br>";
          assert BrAt(head, 0);
        }
      }
      OnlyBrMarkupAppend(head, ModalChars(s[1..]));
    }
  }
}
