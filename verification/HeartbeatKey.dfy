/** The heartbeat key of a node and the SCAN pattern that is meant to find every such key
    (ClusterImpl.cpp, ClusterImpl.hpp). */
module HeartbeatKey {

  const PREFIX := "cluster:node:"
  const SUFFIX := ":heartbeat"
  const PATTERN := "cluster:node:*:heartbeat"

  // The key under which node `nodeId` publishes its heartbeat.
  function Key(nodeId: string): string {
    PREFIX + nodeId + SUFFIX
  }

  // Redis glob matching, for patterns without character classes: '*' stands for any
  // run of characters, '?' for any one character, and '\' quotes the next character.
  predicate GlobMatch(pattern: string, s: string)
    decreases |pattern| + |s|
  {
    if pattern == [] then s == []
    else if pattern[0] == '*' then
      GlobMatch(pattern[1..], s) || (s != [] && GlobMatch(pattern, s[1..]))
    else if pattern[0] == '\\' && |pattern| >= 2 then
      s != [] && s[0] == pattern[1] && GlobMatch(pattern[2..], s[1..])
    else
      s != [] && (pattern[0] == '?' || pattern[0] == s[0]) && GlobMatch(pattern[1..], s[1..])
  }

  predicate Plain(pattern: string) {
    forall i :: 0 <= i < |pattern| ==> pattern[i] !in {'*', '?', '\\'}
  }

  // A pattern that starts with plain text matches exactly the strings that start with the same text.
  lemma {:induction false} PlainPrefixMatch(text: string, pattern: string, s: string)
    requires Plain(text)
    ensures GlobMatch(text + pattern, s) <==> text <= s && GlobMatch(pattern, s[|text|..])
  {
    if text == [] {
      assert text + pattern == pattern;
    } else {
      assert (text + pattern)[0] == text[0];
      assert (text + pattern)[1..] == text[1..] + pattern;
      if s != [] && s[0] == text[0] {
        PlainPrefixMatch(text[1..], pattern, s[1..]);
        if text[1..] <= s[1..] {
          assert s == [s[0]] + s[1..] && text == [text[0]] + text[1..];
          assert s[1..][|text[1..]|..] == s[|text|..];
        }
        if text <= s { assert text[1..] <= s[1..]; }
      }
    }
  }

  // "*" followed by plain text matches exactly the strings that end with that text.
  lemma {:induction false} StarSuffixMatch(text: string, s: string)
    requires Plain(text)
    ensures GlobMatch("*" + text, s) <==> |text| <= |s| && s[|s| - |text|..] == text
  {
    assert ("*" + text)[1..] == text;
    PlainPrefixMatch(text, [], s);
    assert text + [] == text;
    if s != [] {
      StarSuffixMatch(text, s[1..]);
      if |text| < |s| { assert s[1..][|s| - 1 - |text|..] == s[|s| - |text|..]; }
    }
    if |text| == |s| { assert s[|s| - |text|..] == s == s[..|text|]; }
  }

  // "prefix*suffix" matches only strings that have something between the two ...
  lemma {:induction false} StarBetween(prefix: string, suffix: string, s: string) returns (middle: string)
    requires Plain(prefix) && Plain(suffix) && GlobMatch(prefix + ("*" + suffix), s)
    ensures s == prefix + middle + suffix
  {
    PlainPrefixMatch(prefix, "*" + suffix, s);
    var rest := s[|prefix|..];
    StarSuffixMatch(suffix, rest);
    middle := rest[..|rest| - |suffix|];
    assert rest == middle + suffix;
  }

  // ... and every string of that form.
  lemma {:induction false} StarBetweenMatches(prefix: string, suffix: string, middle: string)
    requires Plain(prefix) && Plain(suffix)
    ensures GlobMatch(prefix + ("*" + suffix), prefix + middle + suffix)
  {
    var s := prefix + middle + suffix;
    PlainPrefixMatch(prefix, "*" + suffix, s);
    assert s[|prefix|..] == middle + suffix;
    StarSuffixMatch(suffix, middle + suffix);
  }

  lemma {:induction false} PatternShape()
    ensures PATTERN == PREFIX + ("*" + SUFFIX) && Plain(PREFIX) && Plain(SUFFIX)
  {
  }

  // The pattern finds exactly the heartbeat keys: nothing else in the database, and no node missed.
  lemma {:induction false} PatternMatchesExactlyKeys(s: string)
    ensures GlobMatch(PATTERN, s) <==> exists nodeId :: s == Key(nodeId)
  {
    PatternShape();
    if GlobMatch(PATTERN, s) {
      var nodeId := StarBetween(PREFIX, SUFFIX, s);
      assert s == Key(nodeId);
    }
    forall nodeId | s == Key(nodeId) ensures GlobMatch(PATTERN, s) {
      StarBetweenMatches(PREFIX, SUFFIX, nodeId);
    }
  }

  // Different nodes have different keys.
  lemma {:induction false} KeyIsInjective(a: string, b: string)
    ensures Key(a) == Key(b) <==> a == b
  {
    if Key(a) == Key(b) {
      assert Key(a)[|PREFIX|..|PREFIX| + |a|] == a;
      assert Key(b)[|PREFIX|..|PREFIX| + |b|] == b;
    }
  }

  // The node a heartbeat key belongs to.
  ghost function NodeOf(key: string): (nodeId: string)
    requires GlobMatch(PATTERN, key)
    ensures key == Key(nodeId)
  {
    PatternMatchesExactlyKeys(key);
    var nodeId :| key == Key(nodeId);
    nodeId
  }
}
