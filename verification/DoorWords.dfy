/** When a door that declines a body trips its route: the text searched for transport
    words is the door's name, the route's name and the answer together. */
module DoorWords {
  import opened Text
  import opened Ladder

  /** The text says this, in whatever case. */
  predicate Says(s: string, word: string) {
    ContainsText(Lower(s), word)
  }

  const EXEMPTION: string := "names no messaging socket"

  predicate SaysTransport(s: string) {
    exists i :: 0 <= i < |TRANSPORT_WORDS| && Says(s, TRANSPORT_WORDS[i])
  }

  // ------------------------------------------------------- words and separators

  /** Laid over the separator at this offset, the word differs from it somewhere. */
  ghost predicate Clashes(sep: string, word: string, d: int) {
    exists i :: 0 <= i < |sep| && 0 <= i - d < |word| && sep[i] != word[i - d]
  }

  /** No occurrence of the word can overlap the separator. */
  ghost predicate Clear(sep: string, word: string) {
    word != "" && forall d :: -|word| < d < |sep| ==> Clashes(sep, word, d)
  }

  /** The letters that keep a word clear of the two separators. */
  predicate Plainly(word: string) {
    && |word| > 1 && word[0] != 'd' && word[0] != 'o' && word[0] != 'f' && word[0] != ' '
    && (word[0] == 'r' ==> word[1] != ' ')
    && word[|word| - 1] != ' '
    && (forall k :: 0 <= k < |word| ==> word[k] != ':')
    && (forall k :: 0 <= k < |word| - 1 && word[k] == ' ' ==> word[k + 1] != 'd')
  }

  lemma ColonClear(word: string)
    requires Plainly(word)
    ensures Clear(": ", word)
  {
    var sep := ": ";
    forall d | -|word| < d < |sep|
      ensures Clashes(sep, word, d)
    {
      var i := if d <= 0 then 0 else 1;
      assert sep[i] != word[i - d];
    }
  }

  lemma DoorForClear(word: string)
    requires Plainly(word)
    ensures Clear(" door for ", word)
  {
    var sep := " door for ";
    forall d | -|word| < d < |sep|
      ensures Clashes(sep, word, d)
    {
      if d <= 0 {
        if word[-d] != ' ' {
          assert sep[0] != word[0 - d];
        } else {
          assert sep[1] != word[1 - d];
        }
      } else if sep[d] != word[0] {
        assert sep[d] != word[d - d];
      } else {
        assert (d == 4 || d == 8) && word[0] == 'r';
        assert sep[d + 1] != word[d + 1 - d];
      }
    }
  }

  lemma NoOverlap(a: string, sep: string, b: string, word: string, i: nat)
    requires Clear(sep, word) && |a| - |word| < i < |a| + |sep|
    ensures exists k :: 0 <= k < |word| && i + k < |a + sep + b| && (a + sep + b)[i + k] != word[k]
  {
    var d := i - |a|;
    assert Clashes(sep, word, d);
    var j :| 0 <= j < |sep| && 0 <= j - d < |word| && sep[j] != word[j - d];
    assert (a + sep + b)[i + (j - d)] == sep[j];
  }

  lemma OccursWhere(a: string, sep: string, b: string, word: string, i: nat)
    requires Clear(sep, word) && i <= |a + sep + b| && HasPrefix((a + sep + b)[i..], word)
    ensures (i <= |a| && HasPrefix(a[i..], word))
         || (|a| + |sep| <= i && HasPrefix(b[i - |a| - |sep|..], word))
  {
    var s := a + sep + b;
    assert forall k :: 0 <= k < |word| ==> s[i + k] == s[i..][..|word|][k] == word[k];
    if i + |word| <= |a| {
      assert a[i..][..|word|] == s[i..][..|word|];
    } else if |a| + |sep| <= i {
      assert b[i - |a| - |sep|..] == s[i..];
    } else {
      NoOverlap(a, sep, b, word, i);
      assert false;
    }
  }

  /** A word clear of the separator occurs around it only on one side. */
  lemma OnOneSide(a: string, sep: string, b: string, word: string)
    requires Clear(sep, word)
    ensures ContainsText(a + sep + b, word) <==> ContainsText(a, word) || ContainsText(b, word)
  {
    var s := a + sep + b;
    ContainsIff(s, word);
    ContainsIff(a, word);
    ContainsIff(b, word);
    hide ContainsText;
    if i :| 0 <= i <= |a| && HasPrefix(a[i..], word) {
      assert s[i..][..|word|] == a[i..][..|word|];
      assert HasPrefix(s[i..], word);
    }
    if i :| 0 <= i <= |b| && HasPrefix(b[i..], word) {
      assert s[|a| + |sep| + i..] == b[i..];
    }
    if i :| 0 <= i <= |s| && HasPrefix(s[i..], word) {
      OccursWhere(a, sep, b, word, i);
    }
  }

  // ------------------------------------------------------------- what a refusal says

  lemma {:induction false} LowerJoins(a: string, b: string)
    ensures Lower(a + b) == Lower(a) + Lower(b)
  {
    if a == "" {
      assert a + b == b;
    } else {
      assert (a + b)[1..] == a[1..] + b;
      LowerJoins(a[1..], b);
    }
  }

  lemma SeparatorsAreLower()
    ensures Lower(" door for ") == " door for " && Lower(": ") == ": "
  {
    LowerIs(" door for ");
    LowerIs(": ");
    assert forall i :: 0 <= i < 10 ==> Lower(" door for ")[i] == " door for "[i];
    assert forall i :: 0 <= i < 2 ==> Lower(": ")[i] == ": "[i];
  }

  /** The refusal says a word exactly when the door's name, the route's or the answer does. */
  lemma RefusalSays(door: string, route: string, answer: string, word: string)
    requires Plainly(word)
    ensures Says(door + " door for " + route + ": " + answer, word)
       <==> Says(door, word) || Says(route, word) || Says(answer, word)
  {
    var head := door + " door for " + route;
    SeparatorsAreLower();
    LowerJoins(door, " door for ");
    LowerJoins(door + " door for ", route);
    LowerJoins(head, ": ");
    LowerJoins(head + ": ", answer);
    DoorForClear(word);
    ColonClear(word);
    OnOneSide(Lower(door), " door for ", Lower(route), word);
    OnOneSide(Lower(head), ": ", Lower(answer), word);
  }

  lemma WordsArePlain()
    ensures Plainly(EXEMPTION)
    ensures forall i :: 0 <= i < |TRANSPORT_WORDS| ==> Plainly(TRANSPORT_WORDS[i])
  {
    ShortWordsArePlain();
    LongWordsArePlain();
    hide Plainly;
  }

  lemma ShortWordsArePlain()
    ensures Plainly("connect") && Plainly("socket") && Plainly("refused") && Plainly("timed out") && Plainly("timeout")
    ensures Plainly("app-server") && Plainly("app server")
  {
  }

  lemma LongWordsArePlain()
    ensures Plainly("unreachable") && Plainly("broken pipe") && Plainly("connection reset") && Plainly("no such file")
    ensures Plainly(EXEMPTION)
  {
  }

  // ------------------------------------------------------------- the two results

  /** A door that declined trips its route exactly when the door's name, the route's
      name or the answer says a transport word, and none of them says the exemption. */
  lemma DeclinedTripsIff(door: string, m: Message, w: World, answer: string)
    ensures Refused(door, m, w, answer).trip.Some? <==>
              && (SaysTransport(door) || SaysTransport(m.recipient) || SaysTransport(answer))
              && !Says(door, EXEMPTION) && !Says(m.recipient, EXEMPTION) && !Says(answer, EXEMPTION)
  {
    var why := door + " door for " + m.recipient + ": " + answer;
    WordsArePlain();
    hide Plainly;
    RefusalSays(door, m.recipient, answer, EXEMPTION);
    forall i | 0 <= i < |TRANSPORT_WORDS|
      ensures Says(why, TRANSPORT_WORDS[i])
         <==> Says(door, TRANSPORT_WORDS[i]) || Says(m.recipient, TRANSPORT_WORDS[i]) || Says(answer, TRANSPORT_WORDS[i])
    {
      RefusalSays(door, m.recipient, answer, TRANSPORT_WORDS[i]);
    }
    assert TransportFailure(why) <==> !Says(why, EXEMPTION) && SaysTransport(why);
  }

  lemma {:induction false} ShortOfIt(s: string, word: string)
    requires |s| < |word|
    ensures !ContainsText(s, word)
  {
    if s != "" {
      ShortOfIt(s[1..], word);
    }
  }

  lemma SocketSaysIt()
    ensures SaysTransport("socket") && !Says("socket", EXEMPTION) && !Says("claude", EXEMPTION)
  {
    LowerIs("socket");
    LowerIs("claude");
    assert Lower("socket") == "socket";
    assert Says("socket", TRANSPORT_WORDS[1]);
    ShortOfIt(Lower("socket"), EXEMPTION);
    ShortOfIt(Lower("claude"), EXEMPTION);
  }

  lemma BusySaysNothing()
    ensures !SaysTransport("busy") && !Says("busy", EXEMPTION)
  {
    LowerIs("busy");
    forall i | 0 <= i < |TRANSPORT_WORDS|
      ensures !Says("busy", TRANSPORT_WORDS[i])
    {
      ShortOfIt(Lower("busy"), TRANSPORT_WORDS[i]);
    }
    ShortOfIt(Lower("busy"), EXEMPTION);
  }

  /** A live door that is merely busy, at a route called `socket`: the route cools off. */
  lemma RouteNameTrips(m: Message, w: World)
    requires m.recipient == "socket"
    ensures !SaysTransport("busy")
    ensures Refused("claude", m, w, "busy").trip.Some?
  {
    SocketSaysIt();
    BusySaysNothing();
    DeclinedTripsIff("claude", m, w, "busy");
    hide Says;
    hide SaysTransport;
    hide Refused;
  }
}
