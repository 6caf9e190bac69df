/** The pseudo-locale, and what interpolation makes of it. */
module PseudoLocale {
  import opened Wrappers

  // Placeholders

  predicate IsLetter(c: char) { 'a' <= c <= 'z' || 'A' <= c <= 'Z' }

  predicate IsWord(c: char) { IsLetter(c) || '0' <= c <= '9' || c == '_' }

  /** Length of the run of word characters at the head of `t`. */
  function WordRun(t: string): (n: nat)
    ensures n <= |t|
  {
    if t == "" || !IsWord(t[0]) then 0 else 1 + WordRun(t[1..])
  }

  /** Length of the placeholder `{name}` at the head of `t`, or 0. */
  function Placeholder(t: string): (n: nat)
    ensures n <= |t| && (n > 0 ==> n >= 3)
  {
    if t == "" || t[0] != '{' then 0
    else
      var run := WordRun(t[1..]);
      if run > 0 && run + 1 < |t| && t[run + 1] == '}' then run + 2 else 0
  }

  function Name(placeholder: string): string
    requires |placeholder| >= 2
  {
    placeholder[1..|placeholder| - 1]
  }

  predicate HasPlaceholder(t: string) {
    t != "" && (Placeholder(t) > 0 || HasPlaceholder(t[1..]))
  }

  /** Splitting on placeholders and keeping them: literal, placeholder, literal and so on. */
  function Split(t: string): (parts: seq<string>)
    ensures |parts| > 0
    decreases |t|
  {
    if t == "" then [""]
    else if Placeholder(t) > 0 then ["", t[..Placeholder(t)]] + Split(t[Placeholder(t)..])
    else
      var rest := Split(t[1..]);
      [t[..1] + rest[0]] + rest[1..]
  }

  /** The names interpolation asks for, in order. */
  function Names(t: string): seq<string>
    decreases |t|
  {
    if t == "" then []
    else if Placeholder(t) > 0 then [Name(t[..Placeholder(t)])] + Names(t[Placeholder(t)..])
    else Names(t[1..])
  }

  /** The arguments, as what looking up a name gives. */
  type Lookup = string -> Option<string>

  /** What stands for a placeholder: its value, or the token itself for an unknown name. */
  function Value(token: string, args: Lookup): string
    requires |token| >= 2
  {
    var value := args(Name(token));
    if value.None? then token else value.value
  }

  function Replaced(t: string, args: Lookup): string
    decreases |t|
  {
    if t == "" then ""
    else if Placeholder(t) > 0 then Value(t[..Placeholder(t)], args) + Replaced(t[Placeholder(t)..], args)
    else t[..1] + Replaced(t[1..], args)
  }

  function FormatMessage(template: string, args: Option<Lookup>): string {
    if args.None? then template else Replaced(template, args.value)
  }

  // Accents

  function AccentLower(c: char): char {
    match c
    case 'a' => 'á'
    case 'b' => 'ƀ'
    case 'c' => 'ç'
    case 'd' => 'ð'
    case 'e' => 'é'
    case 'f' => 'ƒ'
    case 'g' => 'ĝ'
    case 'h' => 'ĥ'
    case 'i' => 'î'
    case 'j' => 'ĵ'
    case 'k' => 'ķ'
    case 'l' => 'ĺ'
    case 'm' => 'ɱ'
    case 'n' => 'ñ'
    case 'o' => 'ö'
    case 'p' => 'þ'
    case 'q' => 'ᶐ'
    case 'r' => 'ŕ'
    case 's' => 'š'
    case 't' => 'ţ'
    case 'u' => 'û'
    case 'v' => 'ṽ'
    case 'w' => 'ŵ'
    case 'x' => 'ẋ'
    case 'y' => 'ý'
    case 'z' => 'ž'
    case _ => c
  }

  function AccentUpper(c: char): char {
    match c
    case 'A' => 'Á'
    case 'B' => 'Ɓ'
    case 'C' => 'Ç'
    case 'D' => 'Ð'
    case 'E' => 'É'
    case 'F' => 'Ƒ'
    case 'G' => 'Ĝ'
    case 'H' => 'Ĥ'
    case 'I' => 'Î'
    case 'J' => 'Ĵ'
    case 'K' => 'Ķ'
    case 'L' => 'Ĺ'
    case 'M' => 'Ṁ'
    case 'N' => 'Ñ'
    case 'O' => 'Ö'
    case 'P' => 'Þ'
    case 'Q' => 'Ǫ'
    case 'R' => 'Ŕ'
    case 'S' => 'Š'
    case 'T' => 'Ţ'
    case 'U' => 'Û'
    case 'V' => 'Ṽ'
    case 'W' => 'Ŵ'
    case 'X' => 'Ẍ'
    case 'Y' => 'Ý'
    case 'Z' => 'Ž'
    case _ => c
  }

  function AccentChar(c: char): char { if 'a' <= c <= 'z' then AccentLower(c) else AccentUpper(c) }

  function Accent(t: string): (r: string)
    ensures |r| == |t| && forall i | 0 <= i < |t| :: r[i] == AccentChar(t[i])
  {
    seq(|t|, i requires 0 <= i < |t| => AccentChar(t[i]))
  }

  method AccentText(t: string) returns (out: string)
    ensures out == Accent(t)
  {
    out := "";
    for i := 0 to |t|
      invariant |out| == i && forall k | 0 <= k < i :: out[k] == AccentChar(t[k])
    {
      out := out + [AccentChar(t[i])];
    }
  }

  function AccentPart(part: string): string { if HasPlaceholder(part) then part else Accent(part) }

  function JoinAccented(parts: seq<string>): string {
    if parts == [] then "" else AccentPart(parts[0]) + JoinAccented(parts[1..])
  }

  function Accented(t: string): string { JoinAccented(Split(t)) }

  const OPEN: char := '\U{27E6}'
  const CLOSE: char := '\U{27E7}'

  function Tail(padding: nat): (r: string)
    ensures |r| > 0
  {
    (if padding == 0 then "" else " " + seq(padding, _ => '~')) + [CLOSE]
  }

  /** The pseudo-localized template; `padding` is about a third of its length. */
  function PseudoizeString(template: string, padding: nat): string {
    [OPEN] + Accented(template) + Tail(padding)
  }

  // Literals and placeholders

  /** A letter's accented form is no word character, and nothing else changes. */
  lemma {:induction false} AccentLeavesTheRest(c: char)
    ensures IsLetter(c) ==> !IsWord(AccentChar(c)) && AccentChar(c) != '{' && AccentChar(c) != '}'
    ensures !IsLetter(c) ==> AccentChar(c) == c
  {
  }

  /** The letter under an accent. */
  function Unaccented(c: char): char {
    match c
    case 'á' => 'a'
    case 'ƀ' => 'b'
    case 'ç' => 'c'
    case 'ð' => 'd'
    case 'é' => 'e'
    case 'ƒ' => 'f'
    case 'ĝ' => 'g'
    case 'ĥ' => 'h'
    case 'î' => 'i'
    case 'ĵ' => 'j'
    case 'ķ' => 'k'
    case 'ĺ' => 'l'
    case 'ɱ' => 'm'
    case 'ñ' => 'n'
    case 'ö' => 'o'
    case 'þ' => 'p'
    case 'ᶐ' => 'q'
    case 'ŕ' => 'r'
    case 'š' => 's'
    case 'ţ' => 't'
    case 'û' => 'u'
    case 'ṽ' => 'v'
    case 'ŵ' => 'w'
    case 'ẋ' => 'x'
    case 'ý' => 'y'
    case 'ž' => 'z'
    case 'Á' => 'A'
    case 'Ɓ' => 'B'
    case 'Ç' => 'C'
    case 'Ð' => 'D'
    case 'É' => 'E'
    case 'Ƒ' => 'F'
    case 'Ĝ' => 'G'
    case 'Ĥ' => 'H'
    case 'Î' => 'I'
    case 'Ĵ' => 'J'
    case 'Ķ' => 'K'
    case 'Ĺ' => 'L'
    case 'Ṁ' => 'M'
    case 'Ñ' => 'N'
    case 'Ö' => 'O'
    case 'Þ' => 'P'
    case 'Ǫ' => 'Q'
    case 'Ŕ' => 'R'
    case 'Š' => 'S'
    case 'Ţ' => 'T'
    case 'Û' => 'U'
    case 'Ṽ' => 'V'
    case 'Ŵ' => 'W'
    case 'Ẍ' => 'X'
    case 'Ý' => 'Y'
    case 'Ž' => 'Z'
    case _ => c
  }

  lemma {:induction false} LowerComesBack(c: char)
    requires 'a' <= c <= 'z'
    ensures Unaccented(AccentLower(c)) == c
  {
  }

  lemma {:induction false} FirstCapitalsComeBack(c: char)
    requires 'A' <= c <= 'M'
    ensures Unaccented(AccentUpper(c)) == c
  {
  }

  lemma {:induction false} LastCapitalsComeBack(c: char)
    requires 'N' <= c <= 'Z'
    ensures Unaccented(AccentUpper(c)) == c
  {
  }

  lemma {:induction false} UpperComesBack(c: char)
    requires 'A' <= c <= 'Z'
    ensures Unaccented(AccentUpper(c)) == c
  {
    hide *;
    if c <= 'M' { FirstCapitalsComeBack(c); } else { LastCapitalsComeBack(c); }
  }

  /** Under every accent is the letter itself, so different letters stay different, in either case. */
  lemma {:induction false} AccentsStayApart(c: char, d: char)
    requires IsLetter(c) && IsLetter(d)
    ensures Unaccented(AccentChar(c)) == c && (AccentChar(c) == AccentChar(d) <==> c == d)
  {
    hide Unaccented, AccentLower, AccentUpper;
    if 'a' <= c <= 'z' { LowerComesBack(c); } else { UpperComesBack(c); }
    if 'a' <= d <= 'z' { LowerComesBack(d); } else { UpperComesBack(d); }
  }

  lemma {:induction false} PlaceholderPrefix(a: string, b: string)
    requires Placeholder(a) > 0
    ensures Placeholder(a + b) == Placeholder(a) && (a + b)[..Placeholder(a)] == a[..Placeholder(a)]
    ensures (a + b)[Placeholder(a)..] == a[Placeholder(a)..] + b
  {
    RunPrefix(a[1..], b);
    assert (a + b)[1..] == a[1..] + b;
  }

  lemma {:induction false} RunPrefix(a: string, b: string)
    requires WordRun(a) < |a|
    ensures WordRun(a + b) == WordRun(a)
  {
    if IsWord(a[0]) {
      assert (a + b)[1..] == a[1..] + b;
      RunPrefix(a[1..], b);
    }
  }

  /** The literal in front of the first placeholder holds none itself. */
  lemma {:induction false} LiteralHasNone(t: string)
    ensures |Split(t)[0]| <= |t| && Split(t)[0] == t[..|Split(t)[0]|] && !HasPlaceholder(Split(t)[0])
    decreases |t|
  {
    if t != "" && Placeholder(t) == 0 {
      LiteralHasNone(t[1..]);
      var rest := Split(t[1..])[0];
      var literal := t[..1] + rest;
      assert literal == t[..1 + |rest|] && literal[1..] == rest;
      if Placeholder(literal) > 0 {
        PlaceholderPrefix(literal, t[|literal|..]);
        assert literal + t[|literal|..] == t;
      }
    }
  }

  lemma {:induction false} JoinFirst(first: string, rest: seq<string>)
    ensures JoinAccented([first] + rest) == AccentPart(first) + JoinAccented(rest)
  {
    assert ([first] + rest)[1..] == rest;
  }

  lemma {:induction false} AccentedToken(t: string)
    requires Placeholder(t) > 0
    ensures Accented(t) == t[..Placeholder(t)] + Accented(t[Placeholder(t)..])
  {
    var n := Placeholder(t);
    var token, rest := t[..n], Split(t[n..]);
    TokenHolds(t);
    assert AccentPart(token) == token && AccentPart("") == "";
    assert Split(t) == [""] + ([token] + rest);
    hide Placeholder, Split, AccentPart, JoinAccented;
    JoinFirst("", [token] + rest);
    JoinFirst(token, rest);
    NothingBefore(token + JoinAccented(rest));
  }

  lemma {:induction false} NothingBefore(t: string)
    ensures "" + t == t
  {
  }

  lemma {:induction false} SplitStep(t: string)
    requires t != "" && Placeholder(t) == 0
    ensures Split(t) == [t[..1] + Split(t[1..])[0]] + Split(t[1..])[1..]
    ensures Split(t)[0] == t[..1] + Split(t[1..])[0]
  {
    hide Placeholder;
  }

  lemma {:induction false} SplitLiteral(t: string)
    requires t != "" && Placeholder(t) == 0
    ensures var rest := Split(t[1..]);
            && Split(t) == [t[..1] + rest[0]] + rest[1..]
            && AccentPart(t[..1] + rest[0]) == [AccentChar(t[0])] + AccentPart(rest[0])
  {
    hide Placeholder, HasPlaceholder, AccentChar, Split;
    SplitStep(t);
    LiteralHasNone(t);
    LiteralHasNone(t[1..]);
    var literal := Split(t[1..])[0];
    assert Accent(t[..1] + literal) == [AccentChar(t[0])] + Accent(literal);
  }

  lemma {:induction false} AccentedLiteral(t: string)
    requires t != "" && Placeholder(t) == 0
    ensures Accented(t) == [AccentChar(t[0])] + Accented(t[1..])
  {
    SplitLiteral(t);
    hide Placeholder, Split, JoinAccented, AccentPart, AccentChar;
    var rest := Split(t[1..]);
    var literal, later := rest[0], rest[1..];
    assert rest == [literal] + later;
    JoinFirst(t[..1] + literal, later);
    JoinFirst(literal, later);
    Associates([AccentChar(t[0])], AccentPart(literal), JoinAccented(later));
  }

  lemma {:induction false} Associates(a: string, b: string, c: string)
    ensures a + (b + c) == (a + b) + c
  {
  }

  /** Accenting part by part is accenting character by character around the placeholders. */
  lemma {:induction false} AccentedSteps(t: string)
    requires t != ""
    ensures Placeholder(t) > 0 ==> Accented(t) == t[..Placeholder(t)] + Accented(t[Placeholder(t)..])
    ensures Placeholder(t) == 0 ==> Accented(t) == [AccentChar(t[0])] + Accented(t[1..])
  {
    hide Accented, Placeholder, AccentChar;
    if Placeholder(t) > 0 { AccentedToken(t); } else { AccentedLiteral(t); }
  }

  lemma {:induction false} TokenHolds(t: string)
    requires Placeholder(t) > 0
    ensures Placeholder(t[..Placeholder(t)]) == Placeholder(t)
  {
    var n := Placeholder(t);
    RunWithin(t[1..], n - 1);
    assert t[..n][1..] == t[1..][..n - 1];
  }

  lemma {:induction false} RunWithin(t: string, n: nat)
    requires WordRun(t) < n <= |t|
    ensures WordRun(t[..n]) == WordRun(t)
  {
    if IsWord(t[0]) {
      RunWithin(t[1..], n - 1);
      assert t[..n][1..] == t[1..][..n - 1];
    }
  }

  // Commuting

  /** A text that follows the accented one and cannot complete a placeholder in it. */
  predicate Harmless(tail: string) {
    tail != "" && !IsWord(tail[0]) && tail[0] != '}' && tail[0] != '{'
  }

  /** The run of word characters is closed by a brace. */
  predicate Closes(t: string) {
    WordRun(t) < |t| && t[WordRun(t)] == '}'
  }

  lemma {:induction false} ClosesStep(t: string)
    requires t != ""
    ensures Closes(t) <==> t[0] == '}' || (IsWord(t[0]) && Closes(t[1..]))
  {
  }

  /** What closes after accenting closed before: no placeholder is created across a boundary. */
  lemma {:induction false} AccentingClosesNothing(t: string, tail: string)
    requires Harmless(tail) && Closes(Accented(t) + tail)
    ensures Closes(t)
    decreases |t|
  {
    hide Closes, Accented, AccentChar, Placeholder;
    if |t| == 0 {
      assert Accented(t) + tail == tail by { AccentedNothing(t, tail); }
      ClosesStep(tail);
    } else {
      AccentedSteps(t);
      AccentLeavesTheRest(t[0]);
      ClosesStep(t);
      ClosesStep(Accented(t) + tail);
      if Placeholder(t) > 0 {
        OpensWithBrace(t);
      } else {
        assert (Accented(t) + tail)[0] == AccentChar(t[0]);
        assert (Accented(t) + tail)[1..] == Accented(t[1..]) + tail;
        if IsWord(AccentChar(t[0])) && Closes(Accented(t[1..]) + tail) { AccentingClosesNothing(t[1..], tail); }
      }
    }
  }

  lemma {:induction false} AccentedNothing(t: string, tail: string)
    requires |t| == 0
    ensures Accented(t) + tail == tail
  {
    assert Split(t) == [""];
    assert Accent("") == "" && JoinAccented([""]) == "";
  }

  lemma {:induction false} OpensWithBrace(t: string)
    requires Placeholder(t) > 0
    ensures t[0] == '{'
  {
  }

  lemma {:induction false} PlaceholderIs(t: string)
    ensures Placeholder(t) > 0 <==> |t| > 1 && t[0] == '{' && IsWord(t[1]) && Closes(t[1..])
  {
  }

  /** Where the template has no placeholder the accented one has none. */
  lemma {:induction false} AccentingCreatesNone(t: string, tail: string)
    requires t != "" && Placeholder(t) == 0 && Harmless(tail)
    ensures Placeholder(Accented(t) + tail) == 0
  {
    hide Accented, AccentChar, Placeholder, Closes, Harmless;
    var u := Accented(t) + tail;
    AccentedSteps(t);
    AccentLeavesTheRest(t[0]);
    PlaceholderIs(t);
    PlaceholderIs(u);
    assert u[0] == AccentChar(t[0]) && u[1..] == Accented(t[1..]) + tail;
    if Placeholder(u) > 0 {
      AccentingClosesNothing(t[1..], tail);
      WordStaysWord(t[1..], tail);
    }
  }

  lemma {:induction false} WordStaysWord(t: string, tail: string)
    requires Harmless(tail) && IsWord((Accented(t) + tail)[0])
    ensures t != "" && IsWord(t[0])
  {
    hide Accented, AccentChar, Placeholder;
    if |t| == 0 {
      AccentedNothing(t, tail);
    } else {
      AccentedSteps(t);
      AccentLeavesTheRest(t[0]);
      if Placeholder(t) > 0 { OpensWithBrace(t); }
    }
  }

  /** The text a reader sees: accented literals, and each placeholder's value, or the token for an unknown name. */
  function Rendered(t: string, args: Lookup): string
    decreases |t|
  {
    if t == "" then ""
    else if Placeholder(t) > 0 then Value(t[..Placeholder(t)], args) + Rendered(t[Placeholder(t)..], args)
    else [AccentChar(t[0])] + Rendered(t[1..], args)
  }

  /** No placeholder starts anywhere in `t`. */
  lemma {:induction false} PlainStays(t: string, args: Lookup)
    requires '{' !in t
    ensures Replaced(t, args) == t && Names(t) == []
  {
    if t != "" {
      PlainStays(t[1..], args);
      assert t == t[..1] + t[1..];
    }
  }

  lemma {:induction false} WordRunIs(name: string, rest: string)
    requires forall c <- name :: IsWord(c)
    requires rest != "" && !IsWord(rest[0])
    ensures WordRun(name + rest) == |name|
  {
    if name == "" {
      assert name + rest == rest;
    } else {
      assert (name + rest)[1..] == name[1..] + rest;
      WordRunIs(name[1..], rest);
    }
  }

  lemma {:induction false} TokenIsPlaceholder(name: string, rest: string)
    requires name != "" && forall c <- name :: IsWord(c)
    ensures var token := "{" + name + "}";
            && Placeholder(token + rest) == |token| && (token + rest)[..|token|] == token
            && (token + rest)[|token|..] == rest && Name(token) == name
  {
    var t := "{" + name + "}" + rest;
    WordRunIs(name, "}" + rest);
    assert t[1..] == name + ("}" + rest);
  }

  lemma {:induction false} LiteralStep(head: string, later: string, args: Lookup)
    requires |head| == 1 && head[0] != '{'
    ensures Replaced(head + later, args) == head + Replaced(later, args)
    ensures Rendered(head + later, args) == Accent(head) + Rendered(later, args)
  {
    HeadAndRest(head, later);
    assert Placeholder(head + later) == 0;
    hide Placeholder, Replaced, Rendered, AccentChar;
    RenderedSteps(head + later, args);
    ReplacedLiteral(head + later, args);
    assert (head + later)[0] == head[0] && Accent(head) == [AccentChar(head[0])];
  }

  lemma {:induction false} TokenStep(name: string, rest: string, args: Lookup)
    requires name != "" && forall c <- name :: IsWord(c)
    ensures var token := "{" + name + "}"; var shown := if args(name).Some? then args(name).value else token;
            && Replaced(token + rest, args) == shown + Replaced(rest, args)
            && Rendered(token + rest, args) == shown + Rendered(rest, args)
  {
    var token := "{" + name + "}";
    TokenIsPlaceholder(name, rest);
    hide Placeholder, Name, Rendered;
    RenderedSteps(token + rest, args);
  }

  lemma {:induction false} AccentOf(head: string, later: string)
    ensures Accent(head + later) == Accent(head) + Accent(later) && Accent("") == ""
  {
  }

  /**
   * A named placeholder is replaced by its value, and stays as it is for an unknown name; what stands before it
   * is kept as it is by interpolation, and accented by the pseudo-locale.
   */
  lemma {:induction false} PlaceholderTakesItsValue(before: string, name: string, rest: string, args: Lookup)
    requires '{' !in before && name != "" && forall c <- name :: IsWord(c)
    ensures var token := "{" + name + "}"; var shown := if args(name).Some? then args(name).value else token;
            && Replaced(before + (token + rest), args) == before + (shown + Replaced(rest, args))
            && Rendered(before + (token + rest), args) == Accent(before) + (shown + Rendered(rest, args))
    decreases |before|
  {
    hide *;
    var token := "{" + name + "}";
    var shown := if args(name).Some? then args(name).value else token;
    if |before| == 0 {
      TokenStep(name, rest, args);
      AccentOf("", "");
      NothingBefore(token + rest);
      NothingBefore(shown + Replaced(rest, args));
      NothingBefore(shown + Rendered(rest, args));
      assert before == "";
    } else {
      var head, later := before[..1], before[1..];
      assert before == head + later;
      PlaceholderTakesItsValue(later, name, rest, args);
      LiteralStep(head, later + (token + rest), args);
      AccentOf(head, later);
      Associates(head, later, token + rest);
      Associates(head, later, shown + Replaced(rest, args));
      Associates(Accent(head), Accent(later), shown + Rendered(rest, args));
    }
  }

  lemma {:induction false} InterpolationCommutes(t: string, tail: string, args: Lookup)
    requires Harmless(tail) && '{' !in tail
    ensures Replaced(Accented(t) + tail, args) == Rendered(t, args) + tail
    ensures Names(Accented(t) + tail) == Names(t)
    decreases |t|
  {
    if |t| == 0 {
      AccentedNothing(t, tail);
      PlainStays(tail, args);
      NothingBefore(tail);
    } else if Placeholder(t) > 0 {
      TokenCommutes(t, tail, args);
    } else {
      LiteralCommutes(t, tail, args);
    }
  }

  lemma {:induction false} ReplacedToken(token: string, after: string, args: Lookup)
    requires Placeholder(token) == |token| > 0
    ensures Replaced(token + after, args) == Value(token, args) + Replaced(after, args)
    ensures Names(token + after) == [Name(token)] + Names(after)
  {
    PlaceholderPrefix(token, after);
    hide Placeholder, Value, Name;
    assert (token + after)[|token|..] == after && (token + after)[..|token|] == token;
  }

  lemma {:induction false} ReplacedLiteral(t: string, args: Lookup)
    requires t != "" && Placeholder(t) == 0
    ensures Replaced(t, args) == t[..1] + Replaced(t[1..], args) && Names(t) == Names(t[1..])
  {
    hide Placeholder;
  }

  lemma {:induction false} RenderedSteps(t: string, args: Lookup)
    requires t != ""
    ensures Placeholder(t) > 0 ==>
              Rendered(t, args) == Value(t[..Placeholder(t)], args) + Rendered(t[Placeholder(t)..], args)
              && Names(t) == [Name(t[..Placeholder(t)])] + Names(t[Placeholder(t)..])
    ensures Placeholder(t) == 0 ==>
              Rendered(t, args) == [AccentChar(t[0])] + Rendered(t[1..], args) && Names(t) == Names(t[1..])
  {
    hide Placeholder, AccentChar, Value, Name;
  }

  lemma {:induction false} TokenCommutes(t: string, tail: string, args: Lookup)
    requires Harmless(tail) && '{' !in tail && Placeholder(t) > 0
    ensures Replaced(Accented(t) + tail, args) == Rendered(t, args) + tail
    ensures Names(Accented(t) + tail) == Names(t)
    decreases |t|, 0
  {
    hide Accented, Placeholder, Harmless, Replaced, Rendered, Names, Value, Name, AccentChar;
    var token, rest := t[..Placeholder(t)], t[Placeholder(t)..];
    var after := Accented(rest) + tail;
    InterpolationCommutes(rest, tail, args);
    AccentedSteps(t);
    TokenHolds(t);
    RenderedSteps(t, args);
    ReplacedToken(token, after, args);
    Associates(token, Accented(rest), tail);
    Associates(Value(token, args), Rendered(rest, args), tail);
  }

  lemma {:induction false} LiteralCommutes(t: string, tail: string, args: Lookup)
    requires Harmless(tail) && '{' !in tail && t != "" && Placeholder(t) == 0
    ensures Replaced(Accented(t) + tail, args) == Rendered(t, args) + tail
    ensures Names(Accented(t) + tail) == Names(t)
    decreases |t|, 0
  {
    hide Accented, Placeholder, Harmless, Replaced, Rendered, Names, AccentChar;
    var rest, head := t[1..], [AccentChar(t[0])];
    InterpolationCommutes(rest, tail, args);
    AccentedSteps(t);
    AccentingCreatesNone(t, tail);
    RenderedSteps(t, args);
    var u, after := Accented(t) + tail, Accented(rest) + tail;
    Associates(head, Accented(rest), tail);
    ReplacedLiteral(u, args);
    HeadAndRest(head, after);
    Associates(head, Rendered(rest, args), tail);
  }

  lemma {:induction false} HeadAndRest(head: string, rest: string)
    requires |head| == 1
    ensures (head + rest)[..1] == head && (head + rest)[1..] == rest
  {
  }

  lemma {:induction false} TailIsHarmless(padding: nat)
    ensures Harmless(Tail(padding)) && '{' !in Tail(padding)
  {
  }

  /**
   * Pseudo-localizing commutes with interpolation: the bracketed, padded text has the accented literals and the
   * same values or tokens in the same order; without arguments the template itself comes back.
   */
  lemma {:induction false} PseudoCommutes(template: string, padding: nat, args: Option<Lookup>)
    ensures FormatMessage(PseudoizeString(template, padding), args)
      == if args.None? then PseudoizeString(template, padding)
         else [OPEN] + Rendered(template, args.value) + Tail(padding)
    ensures Names(PseudoizeString(template, padding)) == Names(template)
  {
    hide Accented, Rendered, Tail, Replaced, Harmless, Names, Placeholder;
    var tail, lookup: Lookup := Tail(padding), if args.None? then (_ => None) else args.value;
    TailIsHarmless(padding);
    InterpolationCommutes(template, tail, lookup);
    var pseudo, inner := PseudoizeString(template, padding), Accented(template) + tail;
    Associates([OPEN], Accented(template), tail);
    assert pseudo[0] == OPEN && Placeholder(pseudo) == 0 by { PlaceholderIs(pseudo); }
    ReplacedLiteral(pseudo, lookup);
    HeadAndRest([OPEN], inner);
    Associates([OPEN], Rendered(template, lookup), tail);
  }
}
