/** The idempotency gate of the replay rule. */
module H3Verbs {
  import opened H3Hops

  const IDEMPOTENT_METHODS := ["GET", "HEAD", "PUT", "DELETE", "OPTIONS", "TRACE"]

  /** `c` is the capital letter `capital`, or the same letter in lower case. */
  predicate SameLetter(c: char, capital: char) {
    c == capital || ('a' <= c <= 'z' && c as int == capital as int + 32)
  }

  predicate SameWord(verb: string, capitals: string) {
    |verb| == |capitals| && forall i | 0 <= i < |verb| :: SameLetter(verb[i], capitals[i])
  }

  lemma {:induction false} UpperIs(verb: string, capitals: string)
    requires forall i | 0 <= i < |capitals| :: 'A' <= capitals[i] <= 'Z'
    ensures Upper(verb) == capitals <==> SameWord(verb, capitals)
  {
    if verb != [] {
      var upper, rest := Upper(verb), Upper(verb[1..]);
      assert upper == [UpperAscii(verb[0])] + rest;
      if capitals != [] {
        UpperIs(verb[1..], capitals[1..]);
        hide Upper;
        assert capitals == [capitals[0]] + capitals[1..] && upper[1..] == rest;
        assert UpperAscii(verb[0]) == capitals[0] <==> SameLetter(verb[0], capitals[0]);
        assert upper == capitals <==> upper[0] == capitals[0] && rest == capitals[1..];
        SameWordFirst(verb, capitals);
      }
    }
  }

  lemma {:induction false} SameWordFirst(verb: string, capitals: string)
    requires verb != [] && capitals != []
    ensures SameWord(verb, capitals) <==> SameLetter(verb[0], capitals[0]) && SameWord(verb[1..], capitals[1..])
  {
    var rest, more := verb[1..], capitals[1..];
    if SameWord(rest, more) && SameLetter(verb[0], capitals[0]) {
      forall i | 0 <= i < |verb| ensures SameLetter(verb[i], capitals[i]) {
        if i > 0 { assert SameLetter(rest[i - 1], more[i - 1]); }
      }
    }
  }

  /** Exactly the six methods of section 9.2.2 of RFC 9110 pass the gate, in any mixture of letter cases. */
  lemma {:induction false} IdempotentExactly(verb: string)
    ensures Idempotent(verb) <==> exists k | 0 <= k < |IDEMPOTENT_METHODS| :: SameWord(verb, IDEMPOTENT_METHODS[k])
  {
    forall k | 0 <= k < |IDEMPOTENT_METHODS|
      ensures Upper(verb) == IDEMPOTENT_METHODS[k] <==> SameWord(verb, IDEMPOTENT_METHODS[k])
    {
      UpperIs(verb, IDEMPOTENT_METHODS[k]);
    }
    hide Upper, SameWord;
    if Idempotent(verb) {
      assert exists k | 0 <= k < |IDEMPOTENT_METHODS| :: Upper(verb) == IDEMPOTENT_METHODS[k] by {
        assert IDEMPOTENT_METHODS[0] == "GET" && IDEMPOTENT_METHODS[1] == "HEAD" && IDEMPOTENT_METHODS[2] == "PUT";
        assert IDEMPOTENT_METHODS[3] == "DELETE" && IDEMPOTENT_METHODS[4] == "OPTIONS";
        assert IDEMPOTENT_METHODS[5] == "TRACE";
      }
    }
  }
}
