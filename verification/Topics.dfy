/** Topic exchanges: keys are words between dots; in a binding, `*` stands for one word and `#` for any number. */
module Topics {

  /** The words of a non-empty key. */
  function Split(s: string): (ws: seq<string>)
    ensures |ws| >= 1
  {
    if s == "" then [""]
    else
      var rest := Split(s[1..]);
      if s[0] == '.' then [""] + rest else [[s[0]] + rest[0]] + rest[1..]
  }

  function Join(ws: seq<string>): string
    requires ws != []
  {
    if |ws| == 1 then ws[0] else ws[0] + "." + Join(ws[1..])
  }

  function Words(s: string): seq<string> {
    if s == "" then [] else Split(s)
  }

  predicate MatchesWords(pattern: seq<string>, key: seq<string>)
    decreases |pattern| + |key|
  {
    if pattern == [] then key == []
    else if pattern[0] == "#" then
      MatchesWords(pattern[1..], key) || (key != [] && MatchesWords(pattern, key[1..]))
    else
      key != [] && (pattern[0] == "*" || pattern[0] == key[0]) && MatchesWords(pattern[1..], key[1..])
  }

  predicate TopicMatches(pattern: string, key: string) {
    MatchesWords(Words(pattern), Words(key))
  }

  /** No word of the name stands for others. */
  predicate IsPlain(name: string) {
    forall w | w in Words(name) :: w != "*" && w != "#"
  }

  lemma {:induction false} JoinCons(w: string, ws: seq<string>)
    requires ws != []
    ensures Join([w] + ws) == w + "." + Join(ws)
  {
    assert ([w] + ws)[1..] == ws;
  }

  lemma {:induction false} JoinSplit(s: string)
    ensures Join(Split(s)) == s
  {
    if s != "" {
      var rest := Split(s[1..]);
      JoinSplit(s[1..]);
      if s[0] == '.' {
        JoinCons("", rest);
      } else if |rest| > 1 {
        assert Split(s)[1..] == rest[1..];
      }
    }
  }

  /** Names are told apart by their words. */
  lemma {:induction false} WordsTell(s: string, s': string)
    requires Words(s) == Words(s')
    ensures s == s'
  {
    JoinSplit(s);
    JoinSplit(s');
  }

  lemma {:induction false} WordsMatchThemselves(ws: seq<string>)
    ensures MatchesWords(ws, ws)
  {
    if ws != [] { WordsMatchThemselves(ws[1..]); }
    if ws != [] && ws[0] == "#" {
      HashTakesOneMore(ws, ws[1..]);
    }
  }

  lemma {:induction false} HashTakesOneMore(ws: seq<string>, rest: seq<string>)
    requires ws != [] && ws[0] == "#" && ws[1..] == rest && MatchesWords(rest, rest)
    ensures MatchesWords(ws, ws)
  {
    assert MatchesWords(ws, ws[1..]);
  }

  lemma {:induction false} PlainWordsAreExact(pattern: seq<string>, key: seq<string>)
    requires forall w | w in pattern :: w != "*" && w != "#"
    ensures MatchesWords(pattern, key) <==> pattern == key
    decreases |pattern|
  {
    if pattern != [] {
      assert pattern[0] in pattern && forall w | w in pattern[1..] :: w in pattern;
      assert pattern == [pattern[0]] + pattern[1..];
      if key != [] {
        PlainWordsAreExact(pattern[1..], key[1..]);
        assert key == [key[0]] + key[1..];
      }
    }
  }

  /** Every name matches itself, and a plain one nothing else. */
  lemma {:induction false} MatchesItself(name: string)
    ensures TopicMatches(name, name)
    ensures IsPlain(name) ==> forall key :: TopicMatches(name, key) <==> key == name
  {
    WordsMatchThemselves(Words(name));
    if IsPlain(name) {
      forall key ensures TopicMatches(name, key) <==> key == name {
        PlainWordsAreExact(Words(name), Words(key));
        if Words(name) == Words(key) { WordsTell(name, key); }
      }
    }
  }

  lemma {:induction false} HashMatches(key: seq<string>)
    ensures MatchesWords(["#"], key)
  {
    if key != [] { HashMatches(key[1..]); }
  }

  /** The name `#` matches every key. */
  lemma {:induction false} AllMatchHash(key: string)
    ensures TopicMatches("#", key)
  {
    var hash, rest := "#", Split("");
    assert hash[1..] == "" && rest == [""];
    assert [hash[0]] + rest[0] == hash && rest[1..] == [];
    assert Words(hash) == [hash] + [] == [hash];
    HashMatches(Words(key));
  }
}
