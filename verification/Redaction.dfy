/** Scrubbing quoted literals out of a parser message that names a secret-bearing key. */
module Redaction {
  import opened Text

  function SecretKeyTokens(): seq<string> {
    ["fix_password", "bootstrap_secret", "database_url", "password"]
  }

  /** What replaces the contents of a literal. */
  function Redacted(): string { "<redacted>" }

  lemma RedactedIsPlain()
    ensures Redacted() != "" && '"' !in Redacted()
  {}

  predicate Contains(s: string, token: string) {
    token <= s || (s != "" && Contains(s[1..], token))
  }

  predicate NamesSecret(message: string) {
    exists token :: token in SecretKeyTokens() && Contains(Lower(message), token)
  }

  // ---------------------------------------------------------------- the shape of a message

  /** The text of a literal from just after its opening quote, up to the next quote or the end. */
  function Body(s: string): (body: string)
    ensures |body| <= |s| && s[..|body|] == body && '"' !in body
    ensures |body| < |s| ==> s[|body|] == '"'
  {
    if s == "" || s[0] == '"' then "" else [s[0]] + Body(s[1..])
  }

  /** What follows the literal's closing quote; nothing when it has none. */
  function AfterBody(s: string): (rest: string)
    ensures |rest| <= |s|
  {
    var n := |Body(s)|;
    if n < |s| then s[n + 1..] else ""
  }

  /** A character outside quotes, or a literal of which only is kept whether anything was in it. */
  datatype Item = Plain(c: char) | Literal(filled: bool)

  /** A message with the contents of its literals forgotten; an unterminated last literal counts as one. */
  function Shape(s: string): seq<Item>
    decreases |s|
  {
    if s == "" then []
    else if s[0] == '"' then [Literal(Body(s[1..]) != "")] + Shape(AfterBody(s[1..]))
    else [Plain(s[0])] + Shape(s[1..])
  }

  function RenderItem(item: Item): string {
    match item
    case Plain(c) => [c]
    case Literal(filled) => if filled then "\"" + Redacted() + "\"" else "\"\""
  }

  function Render(items: seq<Item>): string {
    if items == [] then "" else RenderItem(items[0]) + Render(items[1..])
  }

  function Scrub(message: string): string {
    if NamesSecret(message) then Render(Shape(message)) else message
  }

  /** Walks over a literal's contents and its closing quote, if it has one. */
  method SkipLiteral(message: string, start: nat) returns (next: nat, hadContents: bool)
    requires start <= |message|
    ensures start <= next <= |message| && message[next..] == AfterBody(message[start..])
    ensures hadContents == (Body(message[start..]) != "")
  {
    hide Body, AfterBody;
    next, hadContents := start, false;
    BodyStart(message, start);
    while next < |message| && message[next] != '"'
      invariant start <= next <= |message| && hadContents == (next > start)
      invariant InBody(message, start, next)
    {
      BodyStep(message, start, next);
      hadContents := true;
      next := next + 1;
    }
    BodyEnd(message, start, next);
    if next < |message| {
      next := next + 1;
    }
  }

  method ScrubSecretLiterals(message: string) returns (out: string)
    ensures out == Scrub(message)
  {
    if !NamesSecret(message) {
      return message;
    }
    hide *;
    out := "";
    var i := 0;
    assert message[0..] == message;
    while i < |message|
      invariant 0 <= i <= |message|
      invariant out + Render(Shape(message[i..])) == Render(Shape(message))
    {
      ghost var rest, written := message[i..], out;
      RenderStep(written, rest);
      var c := message[i];
      assert rest[0] == c && rest[1..] == message[i + 1..];
      i := i + 1;
      if c == '"' {
        out := out + "\"";
        var next, hadContents := SkipLiteral(message, i);
        LiteralWritten(written, hadContents);
        if hadContents {
          out := out + Redacted();
        }
        out := out + "\"";
        i := next;
      } else {
        out := out + [c];
        PlainWritten(written, c);
      }
    }
    ShapeOfNothing();
    assert message[i..] == "";
  }

  /** From `start` up to `i` the text is the beginning of one literal's contents. */
  ghost predicate InBody(message: string, start: nat, i: nat) {
    start <= i <= |message| && Body(message[start..]) == message[start..i] + Body(message[i..])
  }

  lemma LiteralWritten(written: string, filled: bool)
    ensures filled ==> written + "\"" + Redacted() + "\"" == written + RenderItem(Literal(true))
    ensures !filled ==> written + "\"" + "\"" == written + RenderItem(Literal(false))
  {
    hide Redacted;
  }

  lemma PlainWritten(written: string, c: char)
    ensures written + [c] == written + RenderItem(Plain(c))
  {}

  lemma BodyStart(message: string, start: nat)
    requires start <= |message|
    ensures InBody(message, start, start)
  {}

  lemma BodyStep(message: string, start: nat, i: nat)
    requires InBody(message, start, i) && i < |message| && message[i] != '"'
    ensures InBody(message, start, i + 1)
  {
    var rest := message[i..];
    assert rest[0] == message[i] && rest[1..] == message[i + 1..];
    assert Body(rest) == [message[i]] + Body(message[i + 1..]);
    hide Body;
    assert message[start..i + 1] == message[start..i] + [message[i]];
    Regrouped(message[start..i], [message[i]], Body(message[i + 1..]));
  }

  lemma BodyEnd(message: string, start: nat, i: nat)
    requires InBody(message, start, i) && (i < |message| ==> message[i] == '"')
    ensures (Body(message[start..]) != "") == (i > start)
    ensures AfterBody(message[start..]) == message[if i < |message| then i + 1 else i..]
  {
    assert Body(message[i..]) == "";
  }

  lemma ShapeOfNothing()
    ensures Render(Shape("")) == ""
  {}

  lemma RenderStep(written: string, rest: string)
    requires rest != ""
    ensures var after := if rest[0] == '"' then AfterBody(rest[1..]) else rest[1..];
            var item := if rest[0] == '"' then Literal(Body(rest[1..]) != "") else Plain(rest[0]);
            written + RenderItem(item) + Render(Shape(after)) == written + Render(Shape(rest))
  {
    hide RenderItem, Body, AfterBody;
    var after := if rest[0] == '"' then AfterBody(rest[1..]) else rest[1..];
    var item := if rest[0] == '"' then Literal(Body(rest[1..]) != "") else Plain(rest[0]);
    assert Shape(rest) == [item] + Shape(after);
    assert Shape(rest)[1..] == Shape(after);
    assert Render(Shape(rest)) == RenderItem(item) + Render(Shape(after));
    hide Shape, Render;
    Regrouped(written, RenderItem(item), Render(Shape(after)));
  }

  lemma Regrouped(a: string, b: string, c: string)
    ensures a + b + c == a + (b + c)
  {}

  // ---------------------------------------------------------------- rendering keeps the shape

  lemma {:induction false} BodyOf(body: string, rest: string)
    requires '"' !in body
    ensures Body(body + "\"" + rest) == body && AfterBody(body + "\"" + rest) == rest
  {
    var s := body + "\"" + rest;
    if body != "" {
      assert body == [body[0]] + body[1..];
      assert s[1..] == body[1..] + "\"" + rest;
      BodyOf(body[1..], rest);
      assert s[|body| + 1..] == rest;
    } else {
      assert s[1..] == rest;
    }
  }

  /** Items as a message has them: quotes are never plain characters. */
  ghost predicate WellShaped(items: seq<Item>) {
    forall i :: 0 <= i < |items| && items[i].Plain? ==> items[i].c != '"'
  }

  lemma {:induction false} ShapeWellShaped(s: string)
    ensures WellShaped(Shape(s))
    decreases |s|
  {
    if s != "" {
      ShapeWellShaped(if s[0] == '"' then AfterBody(s[1..]) else s[1..]);
    }
  }

  /** The text of a literal is read back out of what it was rendered to. */
  lemma LiteralReadBack(filled: bool, rest: string)
    ensures var s := RenderItem(Literal(filled)) + rest;
            && s != "" && s[0] == '"'
            && Body(s[1..]) == (if filled then Redacted() else "")
            && AfterBody(s[1..]) == rest
  {
    RedactedIsPlain();
    hide Redacted;
    var body := if filled then Redacted() else "";
    var s := RenderItem(Literal(filled)) + rest;
    assert s == "\"" + (body + "\"" + rest);
    assert s[1..] == body + "\"" + rest;
    BodyOf(body, rest);
  }

  /** Rendered text has the shape it was rendered from. */
  lemma {:induction false} ShapeOfRender(items: seq<Item>)
    requires WellShaped(items)
    ensures Shape(Render(items)) == items
  {
    if items != [] {
      RedactedIsPlain();
      hide Redacted;
      var rest := Render(items[1..]);
      ShapeOfRender(items[1..]);
      assert items == [items[0]] + items[1..];
      if items[0].Plain? {
        assert ([items[0].c] + rest)[1..] == rest;
      } else {
        LiteralReadBack(items[0].filled, rest);
        hide RenderItem;
      }
    }
  }

  /** Scrubbing twice is scrubbing once. */
  lemma ScrubIdempotent(message: string)
    ensures Scrub(Scrub(message)) == Scrub(message)
  {
    ShapeWellShaped(message);
    ShapeOfRender(Shape(message));
    hide NamesSecret, Shape, Render, WellShaped;
  }

  /** Scrubbing keeps every character outside quotes, where it was among the literals, and which literals were empty. */
  lemma ScrubKeepsShape(message: string)
    ensures Shape(Scrub(message)) == Shape(message)
  {
    ShapeWellShaped(message);
    ShapeOfRender(Shape(message));
    hide NamesSecret, Shape, Render, WellShaped;
  }

  // ---------------------------------------------------------------- quotes and literals

  function Quotes(s: string): nat {
    if s == "" then 0 else (if s[0] == '"' then 1 else 0) + Quotes(s[1..])
  }

  lemma {:induction false} QuotesAppend(a: string, b: string)
    ensures Quotes(a + b) == Quotes(a) + Quotes(b)
  {
    if a == "" {
      assert a + b == b;
    } else {
      assert (a + b)[1..] == a[1..] + b;
      QuotesAppend(a[1..], b);
    }
  }

  lemma {:induction false} NoQuotes(s: string)
    requires '"' !in s
    ensures Quotes(s) == 0
  {
    if s != "" {
      assert s == [s[0]] + s[1..];
      NoQuotes(s[1..]);
    }
  }

  lemma ItemBalanced(item: Item)
    requires item.Plain? ==> item.c != '"'
    ensures Quotes(RenderItem(item)) % 2 == 0
  {
    RedactedIsPlain();
    hide Redacted;
    if item.Literal? {
      var body := if item.filled then Redacted() else "";
      assert RenderItem(item) == "\"" + (body + "\"");
      NoQuotes(body);
      QuotesAppend("\"", body + "\"");
      QuotesAppend(body, "\"");
    }
  }

  lemma {:induction false} RenderBalanced(items: seq<Item>)
    requires WellShaped(items)
    ensures Quotes(Render(items)) % 2 == 0
  {
    if items != [] {
      ItemBalanced(items[0]);
      hide RenderItem;
      RenderBalanced(items[1..]);
      QuotesAppend(RenderItem(items[0]), Render(items[1..]));
    }
  }

  /** A scrubbed message has balanced quotes, also when its last literal was unterminated. */
  lemma ScrubBalancesQuotes(message: string)
    requires NamesSecret(message)
    ensures Quotes(Scrub(message)) % 2 == 0
  {
    ShapeWellShaped(message);
    RenderBalanced(Shape(message));
  }

  /** The contents of the literals of a message, in order. */
  function Literals(s: string): seq<string>
    decreases |s|
  {
    if s == "" then []
    else if s[0] == '"' then [Body(s[1..])] + Literals(AfterBody(s[1..]))
    else Literals(s[1..])
  }

  lemma LiteralsOfItem(item: Item, rest: string)
    requires item.Plain? ==> item.c != '"'
    ensures Literals(RenderItem(item) + rest)
         == (if item.Plain? then [] else [if item.filled then Redacted() else ""]) + Literals(rest)
  {
    hide Redacted;
    if item.Plain? {
      assert ([item.c] + rest)[1..] == rest;
    } else {
      LiteralReadBack(item.filled, rest);
      hide RenderItem;
    }
  }

  lemma {:induction false} RenderedLiterals(items: seq<Item>, k: nat)
    requires WellShaped(items) && k < |Literals(Render(items))|
    ensures Literals(Render(items))[k] in ["", Redacted()]
    decreases |items|
  {
    LiteralsOfItem(items[0], Render(items[1..]));
    hide Literals, Redacted, RenderItem;
    if items[0].Plain? {
      RenderedLiterals(items[1..], k);
    } else if k > 0 {
      RenderedLiterals(items[1..], k - 1);
    }
  }

  /** Nothing but the placeholder is left inside the quotes of a scrubbed message. */
  lemma NothingLeftInQuotes(message: string, k: nat)
    requires NamesSecret(message) && k < |Literals(Scrub(message))|
    ensures Literals(Scrub(message))[k] in ["", Redacted()]
  {
    ShapeWellShaped(message);
    RenderedLiterals(Shape(message), k);
  }

  // ---------------------------------------------------------------- noninterference

  /** The items start with a run of plain characters that spell the token, letter case aside. */
  predicate StartsOutside(items: seq<Item>, token: string) {
    token == "" ||
    (items != [] && items[0].Plain? && LowerChar(items[0].c) == token[0] && StartsOutside(items[1..], token[1..]))
  }

  predicate ContainsOutside(items: seq<Item>, token: string) {
    StartsOutside(items, token) || (items != [] && ContainsOutside(items[1..], token))
  }

  /** A secret key stands in a run of characters outside quotes. */
  predicate NamesSecretOutside(items: seq<Item>) {
    exists token :: token in SecretKeyTokens() && ContainsOutside(items, token)
  }

  lemma {:induction false} StartShows(s: string, token: string)
    requires StartsOutside(Shape(s), token)
    ensures token <= Lower(s)
    decreases |s|
  {
    if token != "" {
      assert s != "" && Shape(s)[1..] == Shape(s[1..]);
      StartShows(s[1..], token[1..]);
      assert Lower(s) == [LowerChar(s[0])] + Lower(s[1..]);
      assert token == [token[0]] + token[1..];
    }
  }

  lemma {:induction false} ContainsInSuffix(s: string, k: nat, token: string)
    requires k <= |s| && Contains(s[k..], token)
    ensures Contains(s, token)
    decreases k
  {
    if k > 0 {
      assert s[1..][k - 1..] == s[k..];
      ContainsInSuffix(s[1..], k - 1, token);
    } else {
      assert s[0..] == s;
    }
  }

  /** A run of plain items is a run of the message's own characters. */
  lemma {:induction false} OutsideShows(s: string, token: string)
    requires ContainsOutside(Shape(s), token)
    ensures Contains(Lower(s), token)
    decreases |s|
  {
    if StartsOutside(Shape(s), token) {
      StartShows(s, token);
    } else {
      var rest := if s[0] == '"' then AfterBody(s[1..]) else s[1..];
      assert Shape(s)[1..] == Shape(rest);
      OutsideShows(rest, token);
      var k := |s| - |rest|;
      assert rest == s[k..];
      assert Lower(rest) == Lower(s)[k..];
      hide Lower, Shape, Contains;
      ContainsInSuffix(Lower(s), k, token);
    }
  }

  lemma OutsideNames(message: string)
    requires NamesSecretOutside(Shape(message))
    ensures NamesSecret(message)
  {
    hide SecretKeyTokens, Shape, ContainsOutside, Contains;
    var token :| token in SecretKeyTokens() && ContainsOutside(Shape(message), token);
    OutsideShows(message, token);
  }

  /**
   What is inside quotes cannot show. Two messages alike outside quotes and in which
   literals are empty scrub to the same text as soon as that outside text names a secret
   key, whatever their literals hold and whether or not the last one is terminated. And
   of two messages that name a secret key the scrubbed texts agree only if the messages
   are so alike.
   */
  lemma ScrubNoninterference(a: string, b: string)
    ensures Shape(a) == Shape(b) && NamesSecretOutside(Shape(a)) ==> Scrub(a) == Scrub(b)
    ensures NamesSecret(a) && NamesSecret(b) ==> (Scrub(a) == Scrub(b) <==> Shape(a) == Shape(b))
  {
    if Shape(a) == Shape(b) && NamesSecretOutside(Shape(a)) {
      OutsideNames(a);
      OutsideNames(b);
    }
    ScrubKeepsShape(a);
    ScrubKeepsShape(b);
  }

  // ---------------------------------------------------------------- exactly when

  /** A message with the given items: filled literals hold the one character `fill`, and the last literal may be left open. */
  function Spell(items: seq<Item>, fill: char, closed: bool): string {
    if items == [] then "" else SpellItem(items[0], fill, closed || |items| > 1) + Spell(items[1..], fill, closed)
  }

  function SpellItem(item: Item, fill: char, closed: bool): string {
    match item
    case Plain(c) => [c]
    case Literal(filled) => "\"" + (if filled then [fill] else "") + (if closed then "\"" else "")
  }

  lemma SpelledLiteral(filled: bool, fill: char, closed: bool, rest: string)
    requires fill != '"' && (closed || rest == "")
    ensures var s := SpellItem(Literal(filled), fill, closed) + rest;
            && s != "" && s[0] == '"'
            && (Body(s[1..]) != "") == filled
            && AfterBody(s[1..]) == rest
  {
    var body := if filled then [fill] else "";
    var s := SpellItem(Literal(filled), fill, closed) + rest;
    if closed {
      assert s[1..] == body + "\"" + rest;
      BodyOf(body, rest);
    } else {
      assert s[1..] == body;
      assert filled ==> body[1..] == "";
    }
  }

  lemma {:induction false} ShapeOfSpell(items: seq<Item>, fill: char, closed: bool)
    requires WellShaped(items) && fill != '"'
    ensures Shape(Spell(items, fill, closed)) == items
    decreases |items|
  {
    if items != [] {
      var rest := Spell(items[1..], fill, closed);
      ShapeOfSpell(items[1..], fill, closed);
      assert items == [items[0]] + items[1..];
      if items[0].Plain? {
        assert ([items[0].c] + rest)[1..] == rest;
      } else {
        SpelledLiteral(items[0].filled, fill, closed || |items| > 1, rest);
        hide SpellItem;
      }
    }
  }

  lemma LowerTail(s: string)
    requires s != ""
    ensures Lower(s)[1..] == Lower(s[1..])
  {}

  lemma {:induction false} SpelledStart(items: seq<Item>, fill: char, closed: bool, token: string)
    requires '"' !in token && token <= Lower(Spell(items, fill, closed))
    ensures StartsOutside(items, token)
    decreases |token|
  {
    if token != "" {
      var s := Spell(items, fill, closed);
      assert token[0] in token && token[0] == LowerChar(s[0]);
      LowerTail(s);
      assert s[1..] == Spell(items[1..], fill, closed);
      assert forall c :: c in token[1..] ==> c in token;
      SpelledStart(items[1..], fill, closed, token[1..]);
    }
  }

  /** A token cannot begin at a quote or at the filling of a literal. */
  lemma {:induction false} SkipsLiteral(literal: string, rest: string, fill: char, token: string)
    requires token != "" && token[0] != '"' && token[0] != LowerChar(fill)
    requires forall c :: c in literal ==> c == '"' || c == fill
    requires Contains(Lower(literal + rest), token)
    ensures Contains(Lower(rest), token)
    decreases |literal|
  {
    var s := literal + rest;
    if literal == "" {
      assert s == rest;
    } else {
      assert literal[0] in literal && Lower(s)[0] == LowerChar(literal[0]);
      LowerTail(s);
      assert s[1..] == literal[1..] + rest;
      assert forall c :: c in literal[1..] ==> c in literal;
      SkipsLiteral(literal[1..], rest, fill, token);
    }
  }

  /** A token found in such a message stands outside quotes. */
  lemma {:induction false} SpelledContains(items: seq<Item>, fill: char, closed: bool, token: string)
    requires token != "" && '"' !in token && token[0] != LowerChar(fill)
    requires Contains(Lower(Spell(items, fill, closed)), token)
    ensures ContainsOutside(items, token)
    decreases |items|
  {
    var s := Spell(items, fill, closed);
    if token <= Lower(s) {
      SpelledStart(items, fill, closed, token);
    } else {
      var rest := Spell(items[1..], fill, closed);
      var first := SpellItem(items[0], fill, closed || |items| > 1);
      assert token[0] in token;
      if items[0].Plain? {
        LowerTail(s);
        assert s[1..] == rest;
      } else {
        SkipsLiteral(first, rest, fill, token);
      }
      hide Lower, Spell, StartsOutside;
      SpelledContains(items[1..], fill, closed, token);
    }
  }

  lemma TokensArePlain(token: string)
    requires token in SecretKeyTokens()
    ensures token != "" && '"' !in token && token[0] != 'x' && token[0] != 'y'
  {}

  /** Messages filled with a letter no key begins with name a secret only outside quotes. */
  lemma SpelledNames(items: seq<Item>, fill: char, closed: bool)
    requires fill in ['x', 'y'] && NamesSecret(Spell(items, fill, closed))
    ensures NamesSecretOutside(items)
  {
    var token :| token in SecretKeyTokens() && Contains(Lower(Spell(items, fill, closed)), token);
    TokensArePlain(token);
    hide SecretKeyTokens, Contains, ContainsOutside;
    SpelledContains(items, fill, closed, token);
  }

  /** A shape that leaves nothing open: nothing in any literal, and no literal at the end that might lack its quote. */
  predicate Determines(items: seq<Item>) {
    Literal(true) !in items && (items != [] ==> items[|items| - 1].Plain?)
  }

  lemma ShapeSteps(s: string)
    ensures Shape(s) == [] <==> s == ""
    ensures s != "" && s[0] == '"' ==> Shape(s) == [Literal(Body(s[1..]) != "")] + Shape(AfterBody(s[1..]))
    ensures s != "" && s[0] != '"' ==> Shape(s) == [Plain(s[0])] + Shape(s[1..])
  {}

  lemma {:induction false} ShapeDetermines(a: string, b: string)
    requires Shape(a) == Shape(b) && Determines(Shape(a))
    ensures a == b
    decreases |a|
  {
    hide Body, AfterBody, Shape;
    ShapeSteps(a);
    ShapeSteps(b);
    if a != "" {
      var items := Shape(a);
      var x := if a[0] == '"' then AfterBody(a[1..]) else a[1..];
      var y := if b[0] == '"' then AfterBody(b[1..]) else b[1..];
      assert items == [items[0]] + Shape(x) && items == [items[0]] + Shape(y);
      assert Shape(x) == items[1..] == Shape(y);
      ShapeSteps(x);
      ShapeSteps(y);
      ShapeDetermines(x, y);
      if a[0] == '"' {
        assert items[0] in items;
        EmptyLiteralCloses(a[1..]);
        EmptyLiteralCloses(b[1..]);
        assert a == "\"\"" + x && b == "\"\"" + y;
      } else {
        assert a == [a[0]] + x && b == [b[0]] + y;
      }
    }
  }

  lemma EmptyLiteralCloses(s: string)
    requires Body(s) == "" && AfterBody(s) != ""
    ensures s == "\"" + AfterBody(s)
  {}

  lemma {:induction false} FillingsDiffer(items: seq<Item>)
    requires Literal(true) in items
    ensures Spell(items, 'x', true) != Spell(items, 'y', true)
    decreases |items|
  {
    var p, q := Spell(items[1..], 'x', true), Spell(items[1..], 'y', true);
    if items[0] == Literal(true) {
      assert Spell(items, 'x', true)[1] == 'x' && Spell(items, 'y', true)[1] == 'y';
    } else {
      assert items == [items[0]] + items[1..];
      FillingsDiffer(items[1..]);
      var first := SpellItem(items[0], 'x', true);
      assert (first + p)[|first|..] == p && (first + q)[|first|..] == q;
    }
  }

  lemma {:induction false} ClosingsDiffer(items: seq<Item>)
    requires items != [] && items[|items| - 1].Literal?
    ensures |Spell(items, 'x', true)| == |Spell(items, 'x', false)| + 1
    decreases |items|
  {
    if |items| > 1 {
      ClosingsDiffer(items[1..]);
    } else {
      assert items[1..] == [];
    }
  }

  /** Every message alike outside quotes, with the same literals empty, scrubs alike. */
  ghost predicate AlikeScrubAlike(a: string) {
    forall b :: Shape(b) == Shape(a) ==> Scrub(b) == Scrub(a)
  }

  /** Two spellings of a shape, neither of which names a secret, differ unless the shape determines the message. */
  lemma SpellingsShow(a: string)
    requires AlikeScrubAlike(a) && !NamesSecretOutside(Shape(a))
    ensures Determines(Shape(a))
  {
    var items := Shape(a);
    ShapeWellShaped(a);
    forall fill, closed | fill in ['x', 'y']
      ensures Scrub(a) == Spell(items, fill, closed) {
      ShapeOfSpell(items, fill, closed);
      if NamesSecret(Spell(items, fill, closed)) {
        SpelledNames(items, fill, closed);
      }
    }
    hide NamesSecret, NamesSecretOutside, Shape, Spell, Scrub;
    if Literal(true) in items {
      FillingsDiffer(items);
    }
    if items != [] && items[|items| - 1].Literal? {
      ClosingsDiffer(items);
    }
  }

  /**
   What is inside quotes stays hidden exactly when a secret key is named outside quotes,
   or there is nothing to hide: every message of the same shape scrubs alike if and only
   if that shape names a secret key outside quotes or belongs to one message only.
   */
  lemma HidesLiteralsIff(a: string)
    ensures AlikeScrubAlike(a) <==> NamesSecretOutside(Shape(a)) || Determines(Shape(a))
  {
    if NamesSecretOutside(Shape(a)) || Determines(Shape(a)) {
      forall b | Shape(b) == Shape(a) ensures Scrub(b) == Scrub(a) {
        ScrubNoninterference(a, b);
        if Determines(Shape(a)) {
          ShapeDetermines(a, b);
        }
      }
    } else if AlikeScrubAlike(a) {
      SpellingsShow(a);
    }
  }

  // ---------------------------------------------------------------- the key names themselves

  ghost predicate OccursIn(s: string, token: string) {
    exists i :: 0 <= i <= |s| && token <= s[i..]
  }

  lemma {:induction false} ContainsIff(s: string, token: string)
    ensures Contains(s, token) <==> OccursIn(s, token)
  {
    if token <= s {
      assert s[0..] == s;
    } else if s != "" {
      ContainsIff(s[1..], token);
      if i :| 0 <= i <= |s[1..]| && token <= s[1..][i..] {
        assert s[1..][i..] == s[i + 1..];
      }
      if i :| 0 <= i <= |s| && token <= s[i..] {
        assert i > 0 by {
          assert s[0..] == s;
        }
        assert s[1..][i - 1..] == s[i..];
      }
    } else {
      forall i | 0 <= i <= |s| ensures !(token <= s[i..]) {
        assert s[i..] == s;
      }
    }
  }

  /** Exactly the messages that spell one of the four key names, letter case aside, are scrubbed at all. */
  lemma NamesSecretIff(message: string)
    ensures NamesSecret(message) <==>
              || OccursIn(Lower(message), "fix_password") || OccursIn(Lower(message), "bootstrap_secret")
              || OccursIn(Lower(message), "database_url") || OccursIn(Lower(message), "password")
    ensures !NamesSecret(message) ==> Scrub(message) == message
  {
    var s := Lower(message);
    ContainsIff(s, "fix_password");
    ContainsIff(s, "bootstrap_secret");
    ContainsIff(s, "database_url");
    ContainsIff(s, "password");
    hide Contains, OccursIn, Lower;
    assert SecretKeyTokens()[0] == "fix_password" && SecretKeyTokens()[1] == "bootstrap_secret"
        && SecretKeyTokens()[2] == "database_url" && SecretKeyTokens()[3] == "password";
  }

  lemma {:induction false} PlainRendered(s: string, rest: string)
    requires '"' !in s
    ensures Render(Shape(s + rest)) == s + Render(Shape(rest))
  {
    hide Shape, Render;
    if s == "" {
      assert s + rest == rest;
    } else {
      assert s[0] in s && forall c :: c in s[1..] ==> c in s;
      PlainRendered(s[1..], rest);
      assert (s + rest)[1..] == s[1..] + rest;
      ShapeSteps(s + rest);
      RenderCons(Plain(s[0]), Shape(s[1..] + rest));
      assert s == [s[0]] + s[1..];
    }
  }

  lemma RenderCons(item: Item, items: seq<Item>)
    ensures Render([item] + items) == RenderItem(item) + Render(items)
    ensures Render([]) == ""
  {
    assert ([item] + items)[1..] == items;
  }

  lemma QuotedRendered(body: string)
    requires '"' !in body
    ensures Render(Shape("\"" + body + "\"")) == if body == "" then "\"\"" else "\"<redacted>\""
  {
    hide *;
    ShapeOfQuoted(body);
    LiteralRendered(body != "");
  }

  lemma ShapeOfQuoted(body: string)
    requires '"' !in body
    ensures Shape("\"" + body + "\"") == [Literal(body != "")]
  {
    hide Shape, Body, AfterBody;
    var s := "\"" + body + "\"";
    BodyOf(body, "");
    assert s[1..] == body + "\"" + "";
    ShapeSteps(s);
    ShapeSteps("");
  }

  lemma LiteralRendered(filled: bool)
    ensures Render([Literal(filled)]) == if filled then "\"<redacted>\"" else "\"\""
  {
    hide Render;
    RenderCons(Literal(filled), []);
    assert [Literal(filled)] + [] == [Literal(filled)];
  }

  /**
   A key name in any letter case, anywhere outside quotes, takes the contents of the
   literal after it away: what is printed instead is the placeholder.
   */
  lemma NamedLiteralScrubbed(before: string, name: string, between: string, body: string)
    requires '"' !in before && '"' !in name && '"' !in between && '"' !in body
    requires Lower(name) in ["fix_password", "bootstrap_secret", "database_url", "password"]
    ensures Scrub(before + name + between + "\"" + body + "\"")
         == before + name + between + if body == "" then "\"\"" else "\"<redacted>\""
  {
    var outside := before + name + between;
    var quoted := "\"" + body + "\"";
    var message := before + name + between + "\"" + body + "\"";
    assert message == outside + quoted;
    PlainRendered(outside, quoted);
    QuotedRendered(body);
    assert Lower(message)[|before|..][..|name|] == Lower(name);
    assert Lower(name) <= Lower(message)[|before|..];
    NamesSecretIff(message);
    hide Shape, Render;
  }
}
