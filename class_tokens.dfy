/**
 * The tooltip's class-string helpers: a status's class string is split on
 * single spaces, and the badge takes from it the first background token
 * (`bg-…`, grey by default) and the first text-colour token (`text-…`, none
 * by default). Also the completion badge's label.
 */
module ClassTokens {
  import opened Options
  import opened Strings
  import opened Status

  // ---------------------------------------------------------------- split and join

  /** The position of the first space of `s`. */
  function FirstSpace(s: string): (i: nat)
    requires ' ' in s
    ensures i < |s| && s[i] == ' ' && ' ' !in s[..i]
    decreases |s|
  {
    if s[0] == ' ' then 0
    else
      assert ' ' in s[1..] by { assert s == [s[0]] + s[1..]; }
      var k := FirstSpace(s[1..]);
      assert s[..k + 1] == [s[0]] + s[1..][..k];
      k + 1
  }

  /**
   * `s.split(" ")`: the pieces between single spaces, in order. There is
   * always at least one piece; no piece holds a space; consecutive, leading
   * and trailing spaces give empty pieces, and the empty string is one empty
   * piece.
   */
  function Split(s: string): (r: seq<string>)
    ensures |r| >= 1
    ensures forall i :: 0 <= i < |r| ==> ' ' !in r[i]
    decreases |s|
  {
    if ' ' !in s then [s]
    else
      var i := FirstSpace(s);
      [s[..i]] + Split(s[i + 1..])
  }

  /** `tokens.join(" ")`. */
  function Join(tokens: seq<string>): string
    requires |tokens| >= 1
    decreases |tokens|
  {
    if |tokens| == 1 then tokens[0] else tokens[0] + " " + Join(tokens[1..])
  }

  /** Joining the pieces with spaces gives back the string that was split. */
  lemma {:induction false} JoinSplit(s: string)
    ensures Join(Split(s)) == s
    decreases |s|
  {
    if ' ' in s {
      var i := FirstSpace(s);
      JoinSplit(s[i + 1..]);
      var r := [s[..i]] + Split(s[i + 1..]);
      assert r[1..] == Split(s[i + 1..]);
      assert s == s[..i] + " " + s[i + 1..] by {
        assert s == s[..i] + s[i..i + 1] + s[i + 1..];
        assert s[i..i + 1] == " ";
      }
    }
  }

  /** Splitting a word with no space, then a space, then more text. */
  lemma SplitWord(w: string, rest: string)
    requires ' ' !in w
    ensures Split(w + " " + rest) == [w] + Split(rest)
  {
    var s := w + " " + rest;
    assert s[|w|] == ' ';
    assert forall k :: 0 <= k < |w| ==> s[k] == w[k];
    var i := FirstSpace(s);
    assert i == |w|;
    assert s[..i] == w;
    assert s[i + 1..] == rest;
  }

  /** Splitting a string without spaces gives that string as the one piece. */
  lemma SplitSingle(w: string)
    requires ' ' !in w
    ensures Split(w) == [w]
  {
  }

  /** Splitting a join of space-free pieces gives back the pieces. */
  lemma {:induction false} SplitJoin(tokens: seq<string>)
    requires |tokens| >= 1
    requires forall i :: 0 <= i < |tokens| ==> ' ' !in tokens[i]
    ensures Split(Join(tokens)) == tokens
    decreases |tokens|
  {
    if |tokens| == 1 {
      SplitSingle(tokens[0]);
    } else {
      SplitJoin(tokens[1..]);
      SplitWord(tokens[0], Join(tokens[1..]));
      assert tokens == [tokens[0]] + tokens[1..];
    }
  }

  // ---------------------------------------------------------------- first token with a prefix

  /**
   * `tokens.find(cls => cls.startsWith(prefix))`: the first token with the
   * prefix, or none when no token has it.
   */
  function FirstWithPrefix(tokens: seq<string>, prefix: string): (r: Option<string>)
    ensures r.None? <==> forall i :: 0 <= i < |tokens| ==> !StartsWith(tokens[i], prefix)
    ensures r.Some? ==> StartsWith(r.value, prefix)
    ensures r.Some? ==>
      exists i :: (0 <= i < |tokens| && tokens[i] == r.value && StartsWith(r.value, prefix)
                   && forall j :: 0 <= j < i ==> !StartsWith(tokens[j], prefix))
    decreases |tokens|
  {
    if tokens == [] then None
    else if StartsWith(tokens[0], prefix) then Some(tokens[0])
    else
      var r := FirstWithPrefix(tokens[1..], prefix);
      assert forall i :: 1 <= i < |tokens| ==> tokens[i] == tokens[1..][i - 1];
      if r.Some? then
        ghost var i :| 0 <= i < |tokens[1..]| && tokens[1..][i] == r.value
          && StartsWith(r.value, prefix)
          && forall j :: 0 <= j < i ==> !StartsWith(tokens[1..][j], prefix);
        assert tokens[i + 1] == r.value;
        r
      else
        r
  }

  /** The tooltip's fallback background class. */
  const DefaultBg := "bg-gray-100"

  /**
   * `getBgColorClass`: the first `bg-` token of the class string, or the grey
   * default when it has none. Either way the result is a background class.
   */
  function BgColorClass(classes: string): (r: string)
    ensures StartsWith(r, "bg-")
    ensures (forall i :: 0 <= i < |Split(classes)| ==> !StartsWith(Split(classes)[i], "bg-"))
            ==> r == DefaultBg
    ensures (exists k :: 0 <= k < |Split(classes)| && StartsWith(Split(classes)[k], "bg-")) ==>
      exists i :: (0 <= i < |Split(classes)| && Split(classes)[i] == r
                   && forall j :: 0 <= j < i ==> !StartsWith(Split(classes)[j], "bg-"))
  {
    match FirstWithPrefix(Split(classes), "bg-")
    case Some(t) => t
    case None => DefaultBg
  }

  /**
   * `getTextColorClass`: the first `text-` token of the class string, or the
   * empty string when it has none.
   */
  function TextColorClass(classes: string): (r: string)
    ensures r == "" || StartsWith(r, "text-")
    ensures r == "" ==> forall i :: 0 <= i < |Split(classes)| ==> !StartsWith(Split(classes)[i], "text-")
    ensures (forall i :: 0 <= i < |Split(classes)| ==> !StartsWith(Split(classes)[i], "text-")) ==> r == ""
    ensures r != "" ==>
      exists i :: (0 <= i < |Split(classes)| && Split(classes)[i] == r
                   && forall j :: 0 <= j < i ==> !StartsWith(Split(classes)[j], "text-"))
  {
    var found := FirstWithPrefix(Split(classes), "text-");
    if found.Some? then
      assert |found.value| >= |"text-"|;
      found.value
    else
      ""
  }

  /** The grey default yields itself as background and no text colour. */
  lemma DefaultTokens()
    ensures BgColorClass(DefaultBg) == DefaultBg
    ensures TextColorClass(DefaultBg) == ""
  {
    SplitSingle(DefaultBg);
    assert DefaultBg[..5][0] != "text-"[0];
    assert FirstWithPrefix([DefaultBg], "text-") == None;
  }

  /** Joining two or three pieces puts one space between neighbours. */
  lemma JoinPieces(a: string, b: string, c: string)
    ensures Join([a, b]) == a + " " + b
    ensures Join([a, b, c]) == a + " " + (b + " " + c)
  {
    assert [a, b][1..] == [b];
    assert Join([b]) == b;
    assert [a, b, c][1..] == [b, c];
    assert Join([b, c]) == b + " " + c;
  }

  /** The "critical" class string is its three classes joined by spaces. */
  lemma CriticalColorIsJoin()
    ensures StatusColor(Critical) == "bg-indigo-700" + " " + ("border-indigo-800" + " " + "text-white")
  {
    var a := "bg-indigo-700" + " " + ("border-indigo-800" + " " + "text-white");
    var b := StatusColor(Critical);
    assert |a| == |b|;
    forall i | 0 <= i < |a| ensures a[i] == b[i] {}
  }

  /** The "prioritized" class string is its two classes joined by a space. */
  lemma PrioritizedColorIsJoin()
    ensures StatusColor(Prioritized) == "bg-blue-100" + " " + "border-blue-200"
  {
    var a := "bg-blue-100" + " " + "border-blue-200";
    var b := StatusColor(Prioritized);
    assert |a| == |b|;
    forall i | 0 <= i < |a| ensures a[i] == b[i] {}
  }

  /** Splitting three space-free words joined by single spaces gives back the words. */
  lemma SplitThree(a: string, b: string, c: string)
    requires ' ' !in a && ' ' !in b && ' ' !in c
    ensures Split(a + " " + (b + " " + c)) == [a, b, c]
  {
    JoinPieces(a, b, c);
    SplitJoin([a, b, c]);
  }

  /** Splitting two space-free words joined by a single space gives back the words. */
  lemma SplitTwo(a: string, b: string)
    requires ' ' !in a && ' ' !in b
    ensures Split(a + " " + b) == [a, b]
  {
    JoinPieces(a, b, "");
    SplitJoin([a, b]);
  }

  /** The classes of the "critical" and "prioritized" strings hold no space. */
  lemma ClassesHaveNoSpace()
    ensures ' ' !in "bg-indigo-700" && ' ' !in "border-indigo-800" && ' ' !in "text-white"
    ensures ' ' !in "bg-blue-100" && ' ' !in "border-blue-200"
  {
  }

  /** The "critical" class string splits into its three classes. */
  lemma CriticalSplit()
    ensures Split(StatusColor(Critical)) == ["bg-indigo-700", "border-indigo-800", "text-white"]
  {
    ClassesHaveNoSpace();
    CriticalColorIsJoin();
    SplitThree("bg-indigo-700", "border-indigo-800", "text-white");
  }

  /** The "prioritized" class string splits into its two classes. */
  lemma PrioritizedSplit()
    ensures Split(StatusColor(Prioritized)) == ["bg-blue-100", "border-blue-200"]
  {
    ClassesHaveNoSpace();
    PrioritizedColorIsJoin();
    SplitTwo("bg-blue-100", "border-blue-200");
  }

  /** The first token with a prefix among three tokens, when only the first or only the last has it. */
  lemma FirstOfThree(x: string, y: string, z: string, prefix: string)
    ensures StartsWith(x, prefix) ==> FirstWithPrefix([x, y, z], prefix) == Some(x)
    ensures !StartsWith(x, prefix) && !StartsWith(y, prefix) && StartsWith(z, prefix)
            ==> FirstWithPrefix([x, y, z], prefix) == Some(z)
  {
    assert [x, y, z][1..] == [y, z];
    assert [y, z][1..] == [z];
    if !StartsWith(x, prefix) && !StartsWith(y, prefix) && StartsWith(z, prefix) {
      assert FirstWithPrefix([z], prefix) == Some(z);
      assert FirstWithPrefix([y, z], prefix) == Some(z);
    }
  }

  /** The first token with a prefix among two tokens. */
  lemma FirstOfTwo(x: string, y: string, prefix: string)
    ensures StartsWith(x, prefix) ==> FirstWithPrefix([x, y], prefix) == Some(x)
    ensures !StartsWith(x, prefix) && StartsWith(y, prefix) ==> FirstWithPrefix([x, y], prefix) == Some(y)
    ensures !StartsWith(x, prefix) && !StartsWith(y, prefix) ==> FirstWithPrefix([x, y], prefix) == None
  {
    assert [x, y][1..] == [y];
    assert [y][1..] == [];
  }

  /** Which of the critical and prioritized classes are background or text classes. */
  lemma TokenPrefixes()
    ensures StartsWith("bg-indigo-700", "bg-") && !StartsWith("bg-indigo-700", "text-")
    ensures !StartsWith("border-indigo-800", "text-") && StartsWith("text-white", "text-")
    ensures StartsWith("bg-blue-100", "bg-") && !StartsWith("bg-blue-100", "text-")
    ensures !StartsWith("border-blue-200", "text-")
  {
    assert "bg-indigo-700"[..5][0] != 't';
    assert "border-indigo-800"[..5][0] != 't';
    assert "bg-blue-100"[..5][0] != 't';
    assert "border-blue-200"[..5][0] != 't';
  }

  /** The "critical" state's badge is dark indigo with white text. */
  lemma CriticalBadgeTokens()
    ensures BgColorClass(StatusColor(Critical)) == "bg-indigo-700"
    ensures TextColorClass(StatusColor(Critical)) == "text-white"
  {
    CriticalSplit();
    TokenPrefixes();
    FirstOfThree("bg-indigo-700", "border-indigo-800", "text-white", "bg-");
    FirstOfThree("bg-indigo-700", "border-indigo-800", "text-white", "text-");
  }

  /** The "prioritized" state's badge is light blue and has no text colour. */
  lemma PrioritizedBadgeTokens()
    ensures BgColorClass(StatusColor(Prioritized)) == "bg-blue-100"
    ensures TextColorClass(StatusColor(Prioritized)) == ""
  {
    PrioritizedSplit();
    TokenPrefixes();
    FirstOfTwo("bg-blue-100", "border-blue-200", "bg-");
    FirstOfTwo("bg-blue-100", "border-blue-200", "text-");
  }

  /**
   * The tooltip's status badge classes for a status string read from the
   * store: the background and text tokens of its colour string (or of the
   * grey default for an unknown status).
   */
  function BadgeColorClasses(rawStatus: string): (r: (string, string))
    ensures StartsWith(r.0, "bg-")
    ensures r.1 == "" || StartsWith(r.1, "text-")
    ensures ParseStatus(rawStatus).None? ==> r == (DefaultBg, "")
    ensures forall s :: rawStatus == StatusKey(s) ==>
      r == (BgColorClass(StatusColor(s)), TextColorClass(StatusColor(s)))
  {
    var color := TooltipStatusColor(rawStatus);
    DefaultTokens();
    (BgColorClass(color), TextColorClass(color))
  }

  // ---------------------------------------------------------------- completion badge

  /** The completion badge: "Completada" exactly for a completed task, else "En progreso". */
  function CompletionBadge(completed: bool): (badge: string)
    ensures badge == "Completada" <==> completed
    ensures badge == "En progreso" <==> !completed
  {
    if completed then "Completada" else "En progreso"
  }
}
