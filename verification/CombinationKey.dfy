/** Keys of algorithm combinations: the printer, and the two independently written parsers. */
module CombinationKey {

  datatype Combination = Combination(scheduler: string, algorithms: seq<string>, mode: string, feedback: string)

  /** The part of a combination that the parsers fill in. */
  datatype Parsed = Parsed(mode: string, algorithms: seq<string>)

  const DEFAULT_MODE: string := "sequential"
  const SIZE_MODULUS: nat := 0x1_0000_0000_0000_0000

  /** The first occurrence of c in s at or after pos, or |s| when there is none (npos). */
  function Find(s: string, c: char, pos: nat): (k: nat)
    requires pos <= |s|
    ensures pos <= k <= |s|
    ensures k < |s| ==> s[k] == c
    ensures forall i :: pos <= i < k ==> s[i] != c
    decreases |s| - pos
  {
    if pos == |s| || s[pos] == c then pos else Find(s, c, pos + 1)
  }

  /** std::string::substr: at most count characters from pos on. */
  function Substr(s: string, pos: nat, count: nat): string
    requires pos <= |s|
  {
    if count < |s| - pos then s[pos..pos + count] else s[pos..]
  }

  /** What both parsers take for the algorithm list: from behind the bracket at b, over end - b - 1 characters
      computed in unsigned arithmetic, so a closing bracket before b selects the whole rest. */
  function Inner(s: string, b: nat, end: nat): string
    requires b < |s|
  {
    Substr(s, b + 1, (end - b - 1) % SIZE_MODULUS)
  }

  /** The comma-separated fields of s; an empty last field is dropped. */
  ghost function Split(s: string): seq<string> {
    if |s| == 0 then []
    else
      var k := Find(s, ',', 0);
      if k == |s| then [s] else [s[..k]] + Split(s[k + 1..])
  }

  ghost function Parse(s: string): Parsed {
    var b := Find(s, '[', 0);
    if b == |s| then Parsed(DEFAULT_MODE, [])
    else
      var end := Find(s, ']', 0);
      Parsed(s[..b], if end == |s| then [] else Split(Inner(s, b, end)))
  }

  lemma {:induction false} FindInSuffix(s: string, c: char, pos: nat, i: nat)
    requires pos + i <= |s|
    ensures Find(s, c, pos + i) == pos + Find(s[pos..], c, i)
    decreases |s| - pos - i
  {
    if pos + i == |s| || s[pos + i] == c {
    } else {
      FindInSuffix(s, c, pos, i + 1);
    }
  }

  predicate Free(s: string, c: char) {
    forall i :: 0 <= i < |s| ==> s[i] != c
  }

  /** A prefix without c only shifts where c is found. */
  lemma {:induction false} FindPast(front: string, c: char, rest: string, i: nat)
    requires Free(front, c) && i <= |front|
    ensures Find(front + rest, c, i) == |front| + Find(rest, c, 0)
    decreases |front| - i
  {
    if i < |front| {
      assert (front + rest)[i] == front[i];
      FindPast(front, c, rest, i + 1);
    } else {
      assert (front + rest)[|front|..] == rest;
      FindInSuffix(front + rest, c, |front|, 0);
    }
  }

  /** The fields of the rest of s from pos on. */
  ghost function Fields(s: string, pos: nat): seq<string>
    requires pos <= |s|
  {
    Split(s[pos..])
  }

  lemma {:induction false} FieldsEnds(s: string)
    ensures Fields(s, 0) == Split(s) && Fields(s, |s|) == []
  {
    assert s[0..] == s;
  }

  /** One round of a splitting loop: the field before the next comma, at k, joins the names collected so far. */
  lemma {:induction false} NextField(names: seq<string>, s: string, pos: nat, k: nat)
    requires pos < |s| && k == Find(s, ',', pos)
    ensures k == |s| ==> names + [s[pos..]] == names + Fields(s, pos)
    ensures k < |s| ==> names + [s[pos..k]] + Fields(s, k + 1) == names + Fields(s, pos)
  {
    FindInSuffix(s, ',', pos, 0);
    if k < |s| {
      assert s[pos..][..k - pos] == s[pos..k];
      assert s[pos..][k - pos + 1..] == s[k + 1..];
      assert names + [s[pos..k]] + Split(s[k + 1..]) == names + ([s[pos..k]] + Split(s[k + 1..]));
    }
  }

  /** The splitting loop of ThompsonSampling: it searches from the start of the next name. */
  method SplitByPosition(algos: string) returns (names: seq<string>)
    ensures names == Split(algos)
  {
    hide Split, Find, Fields;
    FieldsEnds(algos);
    names := [];
    var pos := 0;
    while pos < |algos|
      invariant 0 <= pos <= |algos|
      invariant names + Fields(algos, pos) == Split(algos)
      decreases |algos| - pos
    {
      var comma := Find(algos, ',', pos);
      NextField(names, algos, pos, comma);
      if comma == |algos| {
        names := names + [algos[pos..]];
        return;
      }
      names := names + [algos[pos..comma]];
      pos := comma + 1;
    }
  }

  /** The splitting loop of UnifiedThompsonSampling: it keeps the next comma at hand. */
  method SplitByComma(algos: string) returns (names: seq<string>)
    ensures names == Split(algos)
  {
    hide Split, Find, Fields;
    FieldsEnds(algos);
    names := [];
    var start := 0;
    var pos := Find(algos, ',', 0);
    while pos < |algos|
      invariant 0 <= start <= |algos| && pos == Find(algos, ',', start)
      invariant names + Fields(algos, start) == Split(algos)
      decreases |algos| - start
    {
      NextField(names, algos, start, pos);
      names := names + [algos[start..pos]];
      start := pos + 1;
      pos := Find(algos, ',', start);
    }
    if start < |algos| {
      NextField(names, algos, start, pos);
      names := names + [algos[start..]];
    }
  }

  /** The parser of ThompsonSampling. */
  method ParseCombinationName(name: string) returns (combo: Parsed)
    ensures combo == Parse(name)
  {
    combo := Parsed(DEFAULT_MODE, []);
    var bracket := Find(name, '[', 0);
    if bracket < |name| {
      combo := combo.(mode := name[..bracket]);
      var end := Find(name, ']', 0);
      if end < |name| {
        var algos := Inner(name, bracket, end);
        var names := SplitByPosition(algos);
        combo := combo.(algorithms := names);
      }
    }
  }

  /** The parser of UnifiedThompsonSampling. */
  method ParseCombinationString(comboStr: string) returns (combo: Parsed)
    ensures combo == Parse(comboStr)
  {
    combo := Parsed(DEFAULT_MODE, []);
    var bracket := Find(comboStr, '[', 0);
    if bracket < |comboStr| {
      combo := combo.(mode := comboStr[..bracket]);
      var end := Find(comboStr, ']', 0);
      if end < |comboStr| {
        var algos := Inner(comboStr, bracket, end);
        var names := SplitByComma(algos);
        combo := combo.(algorithms := names);
      }
    }
  }

  /** The two parsers return the same combination, its parse, on every string. */
  method ParseBothWays(s: string) returns (a: Parsed, b: Parsed)
    ensures a == b == Parse(s)
  {
    a := ParseCombinationName(s);
    b := ParseCombinationString(s);
  }

  ghost function Join(names: seq<string>): string {
    if |names| == 0 then ""
    else if |names| == 1 then names[0]
    else names[0] + ("," + Join(names[1..]))
  }

  function OrDefault(name: string): string {
    if name == "" then "default" else name
  }

  ghost function Print(c: Combination): string {
    OrDefault(c.scheduler) + ":" + c.mode + "[" + Join(c.algorithms) + "]" + ":" + OrDefault(c.feedback)
  }

  /** An empty scheduler or feedback name prints as the name "default", and every other one as itself, at the two ends
      of the key. */
  lemma EmptyPrintsAsDefault(c: Combination)
    ensures Print(c.(scheduler := "")) == Print(c.(scheduler := "default"))
    ensures Print(c.(feedback := "")) == Print(c.(feedback := "default"))
    ensures c.scheduler != "" ==> c.scheduler + ":" <= Print(c)
    ensures c.feedback != "" ==>
      |c.feedback| <= |Print(c)| && Print(c)[|Print(c)| - |c.feedback|..] == c.feedback
  {
    var front := OrDefault(c.scheduler) + ":" + c.mode + "[" + Join(c.algorithms) + "]" + ":";
    assert Print(c) == front + OrDefault(c.feedback);
    var rest := c.mode + "[" + Join(c.algorithms) + "]" + ":" + OrDefault(c.feedback);
    assert Print(c) == OrDefault(c.scheduler) + ":" + rest;
  }

  lemma {:induction false} JoinCons(head: string, names: seq<string>)
    ensures Join([head] + names) == if names == [] then head else head + ("," + Join(names))
  {
    assert ([head] + names)[1..] == names;
  }

  lemma {:induction false} JoinAppend(names: seq<string>, last: string)
    ensures Join(names + [last]) == if |names| == 0 then last else Join(names) + "," + last
  {
    if |names| == 0 {
    } else {
      hide Join;
      var head, rest := names[0], names[1..];
      assert names == [head] + rest && names + [last] == [head] + (rest + [last]);
      JoinCons(head, rest);
      JoinCons(head, rest + [last]);
      JoinAppend(rest, last);
      if rest == [] {
        assert head + ("," + last) == head + "," + last;
      } else {
        assert head + ("," + (Join(rest) + "," + last)) == (head + ("," + Join(rest))) + "," + last;
      }
    }
  }

  /** The list part of the printer. */
  method JoinNames(prefix: string, names: seq<string>) returns (result: string)
    ensures result == prefix + Join(names)
  {
    result := prefix;
    for i := 0 to |names|
      invariant result == prefix + Join(names[..i])
    {
      assert names[..i + 1] == names[..i] + [names[i]];
      JoinAppend(names[..i], names[i]);
      if i > 0 {
        result := result + ",";
      }
      result := result + names[i];
    }
    assert names[..|names|] == names;
  }

  /** The printer. */
  method ToString(c: Combination) returns (result: string)
    ensures result == Print(c)
  {
    if c.scheduler != "" {
      result := c.scheduler + ":";
    } else {
      result := "default:";
    }
    result := result + c.mode + "[";
    assert result == OrDefault(c.scheduler) + ":" + c.mode + "[";
    result := JoinNames(result, c.algorithms);
    result := result + "]";
    if c.feedback != "" {
      result := result + ":" + c.feedback;
    } else {
      result := result + ":default";
    }
  }

  ghost predicate AllFree(names: seq<string>, c: char) {
    forall k :: 0 <= k < |names| ==> Free(names[k], c)
  }

  /** No empty name in last place. */
  predicate EndsNonEmpty(names: seq<string>) {
    |names| > 0 ==> names[|names| - 1] != ""
  }

  lemma {:induction false} SplitHead(head: string, rest: string)
    requires Free(head, ',')
    ensures Split(head + ("," + rest)) == [head] + Split(rest)
  {
    var s := head + ("," + rest);
    FindPast(head, ',', "," + rest, 0);
    assert s[..|head|] == head && s[|head| + 1..] == rest;
  }

  lemma SplitNone()
    ensures Split("") == [] && Join([]) == ""
  {
  }

  lemma {:induction false} SplitOne(name: string)
    requires Free(name, ',')
    ensures Split(name) == if name == "" then [] else [name]
  {
    assert Find(name, ',', 0) == |name|;
  }

  /** Splitting undoes joining, for names without commas, exactly when the last name is not empty. */
  lemma {:induction false} SplitJoin(names: seq<string>)
    requires AllFree(names, ',')
    ensures Split(Join(names)) == if EndsNonEmpty(names) then names else names[..|names| - 1]
  {
    hide Split, Join;
    SplitNone();
    if names == [] {
    } else {
      var head, rest := names[0], names[1..];
      assert names == [head] + rest;
      JoinCons(head, rest);
      if rest == [] {
        SplitOne(head);
      } else {
        SplitHead(head, Join(rest));
        SplitJoin(rest);
        assert [head] + rest[..|rest| - 1] == names[..|names| - 1];
      }
    }
  }

  /** A trailing comma keeps a last empty name. */
  lemma {:induction false} SplitJoinComma(names: seq<string>)
    requires AllFree(names, ',') && names != []
    ensures Split(Join(names) + ",") == names
  {
    hide Split, Join;
    SplitNone();
    var head, rest := names[0], names[1..];
    assert names == [head] + rest;
    JoinCons(head, rest);
    if rest == [] {
      SplitHead(head, "");
      assert head + ("," + "") == head + ",";
    } else {
      SplitHead(head, Join(rest) + ",");
      assert head + ("," + (Join(rest) + ",")) == Join(names) + ",";
      SplitJoinComma(rest);
    }
  }

  /** No field contains a comma, or any character that the split string does not contain. */
  lemma {:induction false} FieldsAreFree(s: string, c: char)
    requires c == ',' || Free(s, c)
    ensures AllFree(Split(s), c)
    decreases |s|
  {
    if |s| == 0 {
    } else {
      var k := Find(s, ',', 0);
      if k < |s| {
        FieldsAreFree(s[k + 1..], c);
      }
    }
  }

  lemma {:induction false} JoinIsFree(names: seq<string>, c: char)
    requires AllFree(names, c) && c != ','
    ensures Free(Join(names), c)
  {
    if |names| <= 1 {
    } else {
      JoinIsFree(names[1..], c);
    }
  }

  /** What follows the opening bracket of a printed key. */
  ghost function Tail(c: Combination): string {
    Join(c.algorithms) + ("]" + (":" + OrDefault(c.feedback)))
  }

  ghost function Front(c: Combination): string {
    OrDefault(c.scheduler) + ":" + c.mode
  }

  lemma TailIs(c: Combination)
    ensures Join(c.algorithms) < Tail(c)
  {
  }

  lemma PrintIs(c: Combination)
    ensures Print(c) == Front(c) + ("[" + Tail(c)) == Front(c) + "[" + Tail(c)
  {
    hide Join, OrDefault;
  }

  ghost predicate NoBrackets(s: string) {
    Free(s, '[') && Free(s, ']')
  }

  lemma SmallMod(x: nat, m: nat)
    requires x < m
    ensures x % m == x
  {
  }

  /** What the parsers take for the list, given where they find the brackets. */
  lemma ParseAt(s: string, b: nat, end: nat)
    requires b == Find(s, '[', 0) < |s| && end == Find(s, ']', 0) < |s|
    ensures Parse(s) == Parsed(s[..b], Split(Inner(s, b, end)))
  {
  }

  /** The list between the brackets, and the whole rest when they come in the wrong order. */
  lemma {:induction false} InnerBetween(s: string, b: nat, end: nat)
    requires b < |s| < SIZE_MODULUS && end < |s| && b != end
    ensures Inner(s, b, end) == if b < end then s[b + 1..end] else s[b + 1..]
  {
    if b < end {
      SmallMod(end - b - 1, SIZE_MODULUS);
    } else {
      WrappedLength(end, b, |s|);
    }
  }

  /** Both searches of the parsers on a text of the form front[tail. */
  lemma {:induction false} FindBrackets(front: string, tail: string)
    requires NoBrackets(front)
    ensures Find(front + ("[" + tail), '[', 0) == |front|
    ensures Find(front + ("[" + tail), ']', 0) == |front| + 1 + Find(tail, ']', 0)
  {
    FindPast(front, '[', "[" + tail, 0);
    assert front + "[" + tail == front + ("[" + tail);
    FindPast(front + "[", ']', tail, 0);
  }

  lemma {:induction false} TailEnd(c: Combination)
    ensures Find(Tail(c), ']', 0) <= |Join(c.algorithms)|
    ensures AllFree(c.algorithms, ']') ==> Find(Tail(c), ']', 0) == |Join(c.algorithms)|
  {
    assert Tail(c)[|Join(c.algorithms)|] == ']';
    if AllFree(c.algorithms, ']') {
      JoinIsFree(c.algorithms, ']');
      FindPast(Join(c.algorithms), ']', "]" + (":" + OrDefault(c.feedback)), 0);
    }
  }

  /** What a key parses to when scheduler and mode contain no brackets: the mode comes back with the scheduler
      in front, and the list is what the text up to the first closing bracket splits into. */
  lemma {:induction false} ParsePrinted(c: Combination, end: nat)
    requires NoBrackets(Front(c)) && |Print(c)| < SIZE_MODULUS
    requires end == Find(Tail(c), ']', 0)
    ensures end <= |Join(c.algorithms)|
    ensures Parse(Print(c)) == Parsed(Front(c), Split(Join(c.algorithms)[..end]))
  {
    hide Split, Find, Join, Parse, Inner;
    var front, tail := Front(c), Tail(c);
    PrintIs(c);
    TailIs(c);
    hide Print, Front, Tail;
    FindBrackets(front, tail);
    TailEnd(c);
    ParseAt(Print(c), |front|, |front| + 1 + end);
    InnerBetween(Print(c), |front|, |front| + 1 + end);
    assert Print(c)[..|front|] == front;
    assert Print(c)[|front| + 1..|front| + 1 + end] == tail[..end];
    assert tail[..end] == Join(c.algorithms)[..end];
  }

  /** A text that splits into the names: their join, or their join with a comma behind it. */
  ghost predicate SplitsInto(x: string, names: seq<string>) {
    (x == Join(names) && EndsNonEmpty(names)) || (names != [] && x == Join(names) + ",")
  }

  lemma {:induction false} JoinSplit(x: string)
    ensures SplitsInto(x, Split(x)) && AllFree(Split(x), ',')
    decreases |x|
  {
    FieldsAreFree(x, ',');
    var k := Find(x, ',', 0);
    if |x| == 0 || k == |x| {
    } else {
      var head, rest := x[..k], x[k + 1..];
      assert Split(x) == [head] + Split(rest);
      assert x == head + ("," + rest);
      hide Split, Join, Find, SplitsInto, AllFree;
      JoinSplit(rest);
      JoinHead(x, head, rest);
    }
  }

  lemma {:induction false} JoinHead(x: string, head: string, rest: string)
    requires SplitsInto(rest, Split(rest)) && x == head + ("," + rest) && Split(x) == [head] + Split(rest)
    ensures SplitsInto(x, Split(x))
  {
    var names := Split(rest);
    JoinCons(head, names);
    SplitNone();
    hide Split, Join;
    if names == [] {
      assert x == head + ",";
    } else if rest == Join(names) {
    } else {
      assert x == (head + ("," + Join(names))) + ",";
    }
  }

  /** Exactly which texts split into the names. */
  lemma {:induction false} SplitIff(x: string, names: seq<string>)
    ensures Split(x) == names <==> AllFree(names, ',') && SplitsInto(x, names)
  {
    JoinSplit(x);
    if AllFree(names, ',') && SplitsInto(x, names) {
      if x == Join(names) && EndsNonEmpty(names) {
        SplitJoin(names);
      } else {
        SplitJoinComma(names);
      }
    }
  }

  /** Text behind the first c does not change where it is found. */
  lemma {:induction false} FindInFront(front: string, c: char, rest: string, i: nat)
    requires i <= |front| && Find(front, c, i) < |front|
    ensures Find(front + rest, c, i) == Find(front, c, i)
    decreases |front| - i
  {
    if front[i] == c {
      assert (front + rest)[i] == c;
    } else {
      assert (front + rest)[i] == front[i];
      FindInFront(front, c, rest, i + 1);
    }
  }

  lemma {:induction false} FindFree(s: string, c: char)
    ensures Free(s, c) <==> Find(s, c, 0) == |s|
  {
  }

  /** Where the parsers find the opening bracket. */
  lemma {:induction false} OpeningBracket(c: Combination)
    ensures Find(Print(c), '[', 0) == Find(Front(c), '[', 0) < |Print(c)|
    ensures Parse(Print(c)).mode == Front(c)[..Find(Front(c), '[', 0)]
  {
    var front, rest := Front(c), "[" + Tail(c);
    assert Print(c) == front + rest;
    var p := Find(front, '[', 0);
    FindFree(front, '[');
    if p < |front| {
      FindInFront(front, '[', rest, 0);
    } else {
      FindPast(front, '[', rest, 0);
    }
    assert Print(c)[..p] == front[..p];
  }

  /** A key whose front opens and closes a bracket itself: the list is what stands between. */
  lemma {:induction false} ListInFront(c: Combination, p: nat, q: nat)
    requires |Print(c)| < SIZE_MODULUS
    requires p == Find(Front(c), '[', 0) < q == Find(Front(c), ']', 0) < |Front(c)|
    ensures Parse(Print(c)).algorithms == Split(Front(c)[p + 1..q])
  {
    hide Split, Find, Parse, Inner;
    var front, rest := Front(c), "[" + Tail(c);
    OpeningBracket(c);
    assert Print(c) == front + rest;
    FindInFront(front, ']', rest, 0);
    ParseAt(Print(c), p, q);
    InnerBetween(Print(c), p, q);
    assert Print(c)[p + 1..q] == front[p + 1..q];
  }

  /** A key whose front closes a bracket before any opens: the unsigned length selects the whole rest ... */
  lemma {:induction false} RestAsList(c: Combination, p: nat, q: nat)
    requires |Print(c)| < SIZE_MODULUS
    requires q == Find(Front(c), ']', 0) < |Front(c)| && q <= p == Find(Front(c), '[', 0)
    ensures p < |Print(c)| && Parse(Print(c)).algorithms == Split(Print(c)[p + 1..])
    ensures |Print(c)[p + 1..]| >= |Tail(c)|
  {
    hide *;
    OpeningBracket(c);
    PrintIs(c);
    RestOfText(Front(c), Tail(c), p, q);
  }

  lemma {:induction false} RestOfText(front: string, tail: string, p: nat, q: nat)
    requires q == Find(front, ']', 0) < |front| && q <= p == Find(front, '[', 0)
    requires var s := front + ("[" + tail); Find(s, '[', 0) == p < |s| < SIZE_MODULUS
    ensures var s := front + ("[" + tail);
      Parse(s).algorithms == Split(s[p + 1..]) && |s[p + 1..]| >= |tail|
  {
    assert front[q] == ']' && (p < |front| ==> front[p] == '[');
    hide *;
    var s := front + ("[" + tail);
    FindInFront(front, ']', "[" + tail, 0);
    ParseAt(s, p, q);
    InnerBetween(s, p, q);
  }

  /** ... which is too long to be the list. */
  /** What a parse is, for a text whose first opening bracket is at b and whose first closing one is at end. */
  lemma {:induction false} ParseOutline(s: string, b: nat, end: nat)
    requires |s| < SIZE_MODULUS && b <= |s| && end <= |s|
    requires Free(s[..b], '[') && (b < |s| ==> s[b] == '[')
    requires Free(s[..end], ']') && (end < |s| ==> s[end] == ']')
    ensures b == |s| ==> Parse(s) == Parsed("sequential", [])
    ensures b < |s| == end ==> Parse(s) == Parsed(s[..b], [])
    ensures b < end < |s| ==> Parse(s) == Parsed(s[..b], Split(s[b + 1..end]))
    ensures end < b < |s| ==> Parse(s) == Parsed(s[..b], Split(s[b + 1..]))
  {
    FirstIs(s, '[', b);
    FirstIs(s, ']', end);
    hide Find, Split, Inner;
    if b < |s| && end < |s| {
      InnerBetween(s, b, end);
    }
  }

  lemma FirstIs(s: string, c: char, k: nat)
    requires k <= |s| && Free(s[..k], c) && (k < |s| ==> s[k] == c)
    ensures Find(s, c, 0) == k
  {
    forall i | 0 <= i < k ensures s[i] != c {
      assert s[..k][i] == s[i];
    }
  }

  lemma {:induction false} ClosedEarly(c: Combination)
    requires |Print(c)| < SIZE_MODULUS
    requires Find(Front(c), ']', 0) < |Front(c)| && Find(Front(c), ']', 0) <= Find(Front(c), '[', 0)
    ensures Parse(Print(c)).algorithms != c.algorithms
  {
    var p, q := Find(Front(c), '[', 0), Find(Front(c), ']', 0);
    RestAsList(c, p, q);
    assert |Tail(c)| > |Join(c.algorithms)| + 1;
    hide Parse, Split, Join, Find, Print, Tail;
    SplitIff(Print(c)[p + 1..], c.algorithms);
  }

  lemma WrappedLength(q: nat, p: nat, len: nat)
    requires q < p < len < SIZE_MODULUS
    ensures (q - p - 1) % SIZE_MODULUS >= len - p - 1
  {
    assert (q - p - 1) % SIZE_MODULUS == q - p - 1 + SIZE_MODULUS;
  }

  lemma {:induction false} NeverShifted(j: string)
    ensures "[" + j != j + ","
  {
    if "[" + j == j + "," {
      AllBrackets(j, |j|);
    }
  }

  lemma {:induction false} AllBrackets(j: string, n: nat)
    requires "[" + j == j + "," && n <= |j|
    ensures (j + ",")[n] == '['
    decreases n
  {
    if n == 0 {
      assert ("[" + j)[0] == '[';
    } else {
      AllBrackets(j, n - 1);
      assert ("[" + j)[n] == j[n - 1] == (j + ",")[n - 1];
    }
  }

  /** A key whose front opens a bracket and closes none: the list starts too early. */
  lemma {:induction false} OpenedEarly(c: Combination)
    requires |Print(c)| < SIZE_MODULUS && Free(Front(c), ']') && Find(Front(c), '[', 0) < |Front(c)|
    ensures Parse(Print(c)).algorithms != c.algorithms
  {
    TailEnd(c);
    var front, joined := Front(c), Join(c.algorithms);
    var p, end := Find(front, '[', 0), Find(Tail(c), ']', 0);
    var x := front[p + 1..] + "[" + joined[..end];
    ListFromFront(c, p, end, x);
    hide Parse, Split, Join, Find, Tail, Print;
    if AllFree(c.algorithms, ']') {
      assert joined[..end] == joined;
      StartsTooEarly(front[p + 1..], c.algorithms);
      SplitIff(x, c.algorithms);
    } else {
      FieldsAreFree(x, ']');
    }
  }

  lemma {:induction false} StartsTooEarly(a: string, names: seq<string>)
    ensures !SplitsInto(a + "[" + Join(names), names)
  {
    var j := Join(names);
    hide Join;
    NeverShifted(j);
    assert a == "" ==> a + "[" + j == "[" + j;
    assert |a + "[" + j| == |a| + 1 + |j| && |j + ","| == |j| + 1;
  }

  lemma {:induction false} ListFromFront(c: Combination, p: nat, end: nat, x: string)
    requires |Print(c)| < SIZE_MODULUS && Free(Front(c), ']') && p == Find(Front(c), '[', 0) < |Front(c)|
    requires end == Find(Tail(c), ']', 0) <= |Join(c.algorithms)|
    requires x == Front(c)[p + 1..] + "[" + Join(c.algorithms)[..end]
    ensures Parse(Print(c)).algorithms == Split(x) && Free(x, ']')
  {
    hide *;
    PrintIs(c);
    TailBegins(c, end);
    OpeningBracket(c);
    RestList(Print(c), Front(c), Tail(c), p, end);
    NoClosing(Front(c), Tail(c), p, end);
  }

  lemma TailBegins(c: Combination, end: nat)
    requires end <= |Join(c.algorithms)|
    ensures |Tail(c)| > |Join(c.algorithms)| && Tail(c)[..end] == Join(c.algorithms)[..end]
  {
    hide Join;
  }

  lemma {:induction false} RestList(s: string, front: string, tail: string, p: nat, end: nat)
    requires |s| < SIZE_MODULUS && s == front + "[" + tail && Free(front, ']')
    requires p == Find(s, '[', 0) < |front| && end == Find(tail, ']', 0) < |tail|
    ensures Parse(s).algorithms == Split(front[p + 1..] + "[" + tail[..end])
  {
    hide Split, Find, Parse, Inner;
    FindPast(front + "[", ']', tail, 0);
    ParseAt(s, p, |front| + 1 + end);
    InnerBetween(s, p, |front| + 1 + end);
    MiddlePart(front, tail, p, end);
  }

  lemma NoClosing(front: string, tail: string, p: nat, end: nat)
    requires p < |front| && end <= |tail| && Free(front, ']') && end == Find(tail, ']', 0)
    ensures Free(front[p + 1..] + "[" + tail[..end], ']')
  {
  }

  lemma {:induction false} MiddlePart(front: string, tail: string, p: nat, end: nat)
    requires p < |front| && end <= |tail|
    ensures var s := front + "[" + tail;
      s[p + 1..|front| + 1 + end] == front[p + 1..] + "[" + tail[..end]
  {
  }

  /** When a key can be read back: with no bracket in front of the list, the names must hold no closing bracket and
      the last one must not be empty; otherwise the front must hold the list itself, in its first brackets. */
  ghost predicate Readable(c: Combination) {
    var front := Front(c);
    var p, q := Find(front, '[', 0), Find(front, ']', 0);
    AllFree(c.algorithms, ',') &&
    if NoBrackets(front) then AllFree(c.algorithms, ']') && EndsNonEmpty(c.algorithms)
    else p < q < |front| && SplitsInto(front[p + 1..q], c.algorithms)
  }

  /** The printed key of a combination without brackets in front of its list. */
  lemma {:induction false} PlainRoundTrip(c: Combination)
    requires NoBrackets(Front(c)) && |Print(c)| < SIZE_MODULUS
    ensures Parse(Print(c)).algorithms == c.algorithms <==>
            AllFree(c.algorithms, ',') && AllFree(c.algorithms, ']') && EndsNonEmpty(c.algorithms)
  {
    var joined := Join(c.algorithms);
    var end := Find(Tail(c), ']', 0);
    ParsePrinted(c, end);
    FieldsAreFree(joined[..end], ',');
    assert Free(joined[..end], ']') by {
      assert joined[..end] == Tail(c)[..end];
    }
    FieldsAreFree(joined[..end], ']');
    if AllFree(c.algorithms, ',') && AllFree(c.algorithms, ']') {
      TailEnd(c);
      assert joined[..end] == joined;
      SplitJoin(c.algorithms);
    }
  }

  /** Headline: for every combination, exactly when parsing its printed key recovers the algorithm list; and the mode
      always comes back with the scheduler, or "default", in front, cut at the first opening bracket. */
  lemma {:induction false} KeyRoundTripIff(c: Combination)
    requires |Print(c)| < SIZE_MODULUS
    ensures Parse(Print(c)).algorithms == c.algorithms <==> Readable(c)
    ensures Parse(Print(c)).mode == Front(c)[..Find(Front(c), '[', 0)]
    ensures Free(Front(c), '[') ==>
      Parse(Print(c)).mode == (if c.scheduler == "" then "default" else c.scheduler) + ":" + c.mode
  {
    var front := Front(c);
    var p, q := Find(front, '[', 0), Find(front, ']', 0);
    OpeningBracket(c);
    FindFree(front, '[');
    FindFree(front, ']');
    hide Parse, Split, Join, Find, AllFree, SplitsInto;
    if NoBrackets(front) {
      PlainRoundTrip(c);
    } else if p < q < |front| {
      ListInFront(c, p, q);
      SplitIff(front[p + 1..q], c.algorithms);
    } else if q < |front| {
      ClosedEarly(c);
    } else {
      OpenedEarly(c);
    }
  }
}
