/**
 * filter/filter_inline_emoji_size.go: every image in a message must be an inline emoji of bounded height. The HTML
 * tokenizer is a parameter; names and values of attributes are as strings.ToLower leaves them.
 */
module InlineImages {
  import opened Basics
  import opened Harms

  const MAX_INT := 0x7fff_ffff_ffff_ffff

  /** Go's int. */
  type GoInt = x: int | -MAX_INT - 1 <= x <= MAX_INT

  const EMOTICON := "data-mx-emoticon"
  const HEIGHT := "height"

  datatype Attr = Attr(key: string, val: string)

  datatype TokenType = StartTag | SelfClosingTag | EndTag | Text | Comment | Doctype

  datatype Token = Token(kind: TokenType, name: string, attrs: seq<Attr>)

  /** What the tokenizer yields before its error token, and whether that token is more than the end of the input. */
  datatype Stream = Stream(tokens: seq<Token>, failed: bool)

  // ---------- What the filter asks for ----------

  /** `^\d+$` */
  predicate AllDigits(s: string) {
    s != [] && forall i :: 0 <= i < |s| ==> '0' <= s[i] <= '9'
  }

  /** The number that some digits denote. */
  function Decimal(s: string): nat
    requires forall i :: 0 <= i < |s| ==> '0' <= s[i] <= '9'
  {
    if s == [] then 0 else 10 * Decimal(s[..|s| - 1]) + (s[|s| - 1] as int - '0' as int)
  }

  /** strconv.Atoi, on digits. */
  function Atoi(s: string): (r: Result<GoInt>)
    requires AllDigits(s)
  {
    if Decimal(s) > MAX_INT then Err else Ok(Decimal(s))
  }

  /** The usual way of writing a number. */
  function Digits(n: nat): string {
    (if n < 10 then "" else Digits(n / 10)) + [('0' as int + n % 10) as char]
  }

  function Zeros(n: nat): string {
    seq(n, i => '0')
  }

  /** Decimal reads back what Digits writes, with any number of zeros before it. */
  lemma {:induction false} DecimalReadsDigits(n: nat, zeros: nat)
    ensures AllDigits(Zeros(zeros) + Digits(n)) && Decimal(Zeros(zeros) + Digits(n)) == n
  {
    var s := Zeros(zeros) + Digits(n);
    var front := Zeros(zeros) + if n < 10 then "" else Digits(n / 10);
    assert s == front + [('0' as int + n % 10) as char];
    if n < 10 {
      ZerosAreZero(zeros);
      assert front == Zeros(zeros);
    } else {
      DecimalReadsDigits(n / 10, zeros);
    }
    DecimalNext(front, n % 10);
  }

  lemma DecimalNext(s: string, digit: nat)
    requires digit < 10 && forall i :: 0 <= i < |s| ==> '0' <= s[i] <= '9'
    ensures AllDigits(s + [('0' as int + digit) as char])
    ensures Decimal(s + [('0' as int + digit) as char]) == 10 * Decimal(s) + digit
  {
    assert (s + [('0' as int + digit) as char])[..|s|] == s;
  }

  lemma {:induction false} ZerosAreZero(n: nat)
    ensures Decimal(Zeros(n)) == 0
  {
    if n > 0 {
      ZerosAreZero(n - 1);
      assert Zeros(n)[..n - 1] == Zeros(n - 1);
    }
  }

  ghost predicate Fits(height: string, maxHeight: GoInt) {
    height != "" && (forall i :: 0 <= i < |height| ==> '0' <= height[i] <= '9') && Decimal(height) <= maxHeight
  }

  lemma FitsInDigits(height: string, maxHeight: GoInt)
    ensures Fits(height, maxHeight) <==> AllDigits(height) && Decimal(height) <= maxHeight
  {
  }

  /** An emoji: marked as one, with exactly one height, and that one within bounds. */
  ghost predicate IsEmoji(attrs: seq<Attr>, maxHeight: GoInt) {
    && (exists i :: 0 <= i < |attrs| && attrs[i].key == EMOTICON)
    && (exists i :: 0 <= i < |attrs| && attrs[i].key == HEIGHT)
    && (forall i, j :: 0 <= i < j < |attrs| && attrs[i].key == HEIGHT ==> attrs[j].key != HEIGHT)
    && (forall i :: 0 <= i < |attrs| && attrs[i].key == HEIGHT ==> Fits(attrs[i].val, maxHeight))
  }

  ghost predicate IsImage(t: Token) {
    (t.kind.StartTag? || t.kind.SelfClosingTag?) && t.name == "img"
  }

  /** Every image is an emoji. */
  ghost predicate Clean(tokens: seq<Token>, maxHeight: GoInt) {
    forall i :: 0 <= i < |tokens| && IsImage(tokens[i]) ==> IsEmoji(tokens[i].attrs, maxHeight)
  }

  // ---------- The code ----------

  /** The loop over a tag's attributes. It runs once even on a tag without any, with an empty name. */
  method CheckImage(attrs: seq<Attr>, maxHeight: GoInt) returns (ok: bool)
    ensures ok <==> IsEmoji(attrs, maxHeight)
  {
    hide Fits, Decimal, AllDigits;
    var isEmoticon, alreadySawHeight, i, moreAttrs := false, false, 0, true;
    while moreAttrs
      invariant 0 <= i && (moreAttrs <==> i == 0 || i < |attrs|)
      invariant isEmoticon <==> exists k :: 0 <= k < i && k < |attrs| && attrs[k].key == EMOTICON
      invariant alreadySawHeight <==> exists k :: 0 <= k < i && k < |attrs| && attrs[k].key == HEIGHT
      invariant forall j, k :: 0 <= j < k < i && k < |attrs| && attrs[j].key == HEIGHT ==> attrs[k].key != HEIGHT
      invariant forall k :: 0 <= k < i && k < |attrs| && attrs[k].key == HEIGHT ==> Fits(attrs[k].val, maxHeight)
      decreases moreAttrs, |attrs| - i
    {
      var attr := if i < |attrs| then attrs[i] else Attr("", "");
      if attr.key == EMOTICON {
        isEmoticon := true;
      }
      if attr.key == HEIGHT {
        if alreadySawHeight {
          return false;
        }
        alreadySawHeight := true;
        FitsInDigits(attr.val, maxHeight);
        if !AllDigits(attr.val) {
          return false;
        }
        var height := Atoi(attr.val);
        if height.Err? || height.value > maxHeight {
          return false;
        }
      }
      i := i + 1;
      moreAttrs := i < |attrs|;
    }
    ok := isEmoticon && alreadySawHeight;
  }

  /** ExtractHtmlRepresentations; `formattedBody` is None when the content cannot be read. */
  method ExtractHtml(eventType: string, formattedBody: Option<string>) returns (r: Result<seq<string>>)
    ensures eventType != "m.room.message" ==> r == Ok([])
    ensures eventType == "m.room.message" ==> r == match formattedBody
      case None => Err
      case Some(html) => Ok(if html == "" then [] else [html])
  {
    if eventType != "m.room.message" {
      return Ok([]);
    }
    if formattedBody.None? {
      return Err;
    }
    r := Ok(if formattedBody.value != "" then [formattedBody.value] else []);
  }

  /**
   * CheckEvent: a message with a formatted body is Prohibited exactly when some image in it is no emoji, and otherwise
   * Neutral unless the tokenizer fails. So an offending image decides even where the tokenizer then fails.
   */
  method CheckEvent(eventType: string, formattedBody: Option<string>, tokenize: string -> Stream, maxHeight: GoInt)
    returns (r: Result<Info>)
    ensures eventType != "m.room.message" ==> r == Ok(NEUTRAL)
    ensures eventType == "m.room.message" ==>
      match formattedBody
      case None => r.Err?
      case Some(html) =>
        if html == "" then r == Ok(NEUTRAL)
        else
          && (r == Ok(ProhibitedInfo([SPAM_GENERAL, SPEC_NON_COMPLIANCE])) <==>
               !Clean(tokenize(html).tokens, maxHeight))
          && (r.Err? <==> Clean(tokenize(html).tokens, maxHeight) && tokenize(html).failed)
          && (r == Ok(NEUTRAL) <==> Clean(tokenize(html).tokens, maxHeight) && !tokenize(html).failed)
  {
    var found := ExtractHtml(eventType, formattedBody);
    if found.Err? {
      return Err;
    }
    var html := found.value;
    for k := 0 to |html|
      invariant forall j :: 0 <= j < k ==> Clean(tokenize(html[j]).tokens, maxHeight) && !tokenize(html[j]).failed
    {
      var parser := tokenize(html[k]);
      for i := 0 to |parser.tokens|
        invariant Clean(parser.tokens[..i], maxHeight)
      {
        var t := parser.tokens[i];
        if (t.kind.StartTag? || t.kind.SelfClosingTag?) && t.name == "img" {
          var ok := CheckImage(t.attrs, maxHeight);
          if !ok {
            return Ok(ProhibitedInfo([SPAM_GENERAL, SPEC_NON_COMPLIANCE]));
          }
        }
      }
      assert parser.tokens[..|parser.tokens|] == parser.tokens;
      if parser.failed {
        return Err;
      }
    }
    assert html != [] ==> Clean(tokenize(html[0]).tokens, maxHeight);
    r := Ok(NEUTRAL);
  }
}
