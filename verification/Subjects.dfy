/** Subject and consumer-name arithmetic of the NATS bus. */
module Subjects {
  datatype Prefixes = Prefixes(events: string, dlq: string)

  function RemovePrefix(s: string, p: string): string {
    if p <= s then s[|p|..] else s
  }

  predicate EndsWith(s: string, tail: string) {
    |tail| <= |s| && s[|s| - |tail|..] == tail
  }

  function RemoveSuffix(s: string, tail: string): string {
    if EndsWith(s, tail) then s[..|s| - |tail|] else s
  }

  function DlqSubject(p: Prefixes, subject: string): string {
    p.dlq + "." + RemovePrefix(subject, p.events + ".")
  }

  function OriginSubject(p: Prefixes, dlqSubject: string): string {
    p.events + "." + RemovePrefix(dlqSubject, p.dlq + ".")
  }

  /** The two mappings undo each other exactly on subjects that carry the respective prefix. */
  lemma SubjectMappingsInverse(p: Prefixes, s: string)
    ensures OriginSubject(p, DlqSubject(p, s)) == s <==> p.events + "." <= s
    ensures DlqSubject(p, OriginSubject(p, s)) == s <==> p.dlq + "." <= s
  {
    var e, d := p.events + ".", p.dlq + ".";
    assert RemovePrefix(d + RemovePrefix(s, e), d) == RemovePrefix(s, e);
    assert RemovePrefix(e + RemovePrefix(s, d), e) == RemovePrefix(s, d);
    assert e <= s ==> e + s[|e|..] == s;
    assert d <= s ==> d + s[|d|..] == s;
    assert !(e <= s) ==> |e + RemovePrefix(s, e)| > |s|;
    assert !(d <= s) ==> |d + RemovePrefix(s, d)| > |s|;
  }

  /** A subject captured by the stream subject `prefix.>`. */
  predicate Captured(prefix: string, s: string) {
    prefix + "." <= s && |prefix| + 1 < |s|
  }

  predicate Nested(p: Prefixes) {
    p.events + "." <= p.dlq + "." || p.dlq + "." <= p.events + "."
  }

  /** Dead letters stay out of the events stream exactly when neither prefix is nested in the other
      at a dot. */
  lemma DlqStaysOutOfEvents(p: Prefixes)
    ensures (exists s :: Captured(p.events, s) && Captured(p.events, DlqSubject(p, s))) <==> Nested(p)
  {
    var e, d := p.events + ".", p.dlq + ".";
    if e <= d {
      var s := e + "x";
      assert DlqSubject(p, s) == d + "x";
      assert Captured(p.events, s) && Captured(p.events, DlqSubject(p, s));
    } else if d <= e {
      var s := e + e[|d|..] + "x";
      assert RemovePrefix(s, e) == e[|d|..] + "x";
      assert DlqSubject(p, s) == d + e[|d|..] + "x" == e + "x";
      assert Captured(p.events, s) && Captured(p.events, DlqSubject(p, s));
    }
    if s :| Captured(p.events, s) && Captured(p.events, DlqSubject(p, s)) {
      var t := DlqSubject(p, s);
      assert e == t[..|e|] && d == t[..|d|];
      if |e| <= |d| {
        assert e == d[..|e|];
      } else {
        assert d == e[..|d|];
      }
    }
  }

  predicate Upper(c: char) { 'A' <= c <= 'Z' }

  predicate Plain(c: char) { Upper(c) || 'a' <= c <= 'z' || '0' <= c <= '9' }

  function ToLower(c: char): char { if Upper(c) then (c as int + 32) as char else c }

  function ToUpper(c: char): char { if 'a' <= c <= 'z' then (c as int - 32) as char else c }

  function SnakePiece(c: char, first: bool): string {
    if Upper(c) && !first then ['_', ToLower(c)] else [ToLower(c)]
  }

  function Snake(name: string): string {
    if name == "" then ""
    else Snake(name[..|name| - 1]) + SnakePiece(name[|name| - 1], |name| == 1)
  }

  method CamelToSnake(name: string) returns (result: string)
    ensures result == Snake(name)
  {
    result := "";
    for i := 0 to |name|
      invariant result == Snake(name[..i])
    {
      assert name[..i + 1][..i] == name[..i];
      if Upper(name[i]) && i > 0 {
        result := result + ['_'];
      }
      result := result + [ToLower(name[i])];
    }
    assert name[..|name|] == name;
  }

  /** The inverse of `Snake` on Pascal-case names. */
  function Camel(s: string): string {
    if |s| <= 1 then (if s == "" then "" else [ToUpper(s[0])])
    else if s[|s| - 2] == '_' then Camel(s[..|s| - 2]) + [ToUpper(s[|s| - 1])]
    else Camel(s[..|s| - 1]) + [s[|s| - 1]]
  }

  predicate Pascal(name: string) {
    name != "" && Upper(name[0]) && forall i | 0 <= i < |name| :: Plain(name[i])
  }

  lemma CamelUnderscore(t: string)
    requires |t| >= 2 && t[|t| - 2] == '_'
    ensures Camel(t) == Camel(t[..|t| - 2]) + [ToUpper(t[|t| - 1])]
  {
  }

  lemma CamelPlain(t: string)
    requires |t| >= 2 && t[|t| - 2] != '_'
    ensures Camel(t) == Camel(t[..|t| - 1]) + [t[|t| - 1]]
  {
  }

  lemma CamelStep(s: string, c: char)
    requires s != ""
    ensures Camel(s + ['_', c]) == Camel(s) + [ToUpper(c)]
    ensures s[|s| - 1] != '_' ==> Camel(s + [c]) == Camel(s) + [c]
  {
    var t, u := s + ['_', c], s + [c];
    assert t[..|t| - 2] == s && u[..|u| - 1] == s;
    CamelUnderscore(t);
    if s[|s| - 1] != '_' {
      CamelPlain(u);
    }
  }

  lemma SnakeStep(s: string, c: char)
    requires s != ""
    ensures Snake(s + [c]) == Snake(s) + SnakePiece(c, false)
  {
    assert (s + [c])[..|s|] == s;
  }

  lemma {:induction false} SnakeInverts(name: string)
    requires Pascal(name)
    ensures Camel(Snake(name)) == name
    ensures Snake(name) != "" && Snake(name)[0] != '_' && Snake(name)[|Snake(name)| - 1] != '_'
  {
    hide Snake, Camel;
    var k := |name| - 1;
    var c := name[k];
    if k > 0 {
      var front := name[..k];
      assert name == front + [c];
      SnakeInverts(front);
      SnakeStep(front, c);
      CamelStep(Snake(front), ToLower(c));
    } else {
      assert name == [c];
      SnakeOfOne(c);
    }
  }

  lemma SnakeOfOne(c: char)
    requires Upper(c)
    ensures Snake([c]) == [ToLower(c)] && Camel([ToLower(c)]) == [c]
  {
    assert Snake([c][..0]) == "";
  }

  /** A word, capital first and no other, only loses its capital. */
  lemma {:induction false} SnakeOfWord(word: string)
    requires word != "" && Upper(word[0]) && forall i | 0 < i < |word| :: !Upper(word[i])
    ensures Snake(word) == [(word[0] as int + 32) as char] + word[1..]
  {
    hide Snake;
    var k := |word| - 1;
    if k == 0 {
      assert word == [word[0]];
      SnakeOfOne(word[0]);
    } else {
      SnakeOfWord(word[..k]);
      assert word == word[..k] + [word[k]];
      SnakeStep(word[..k], word[k]);
    }
  }

  /** An underscore separates the words of a name. */
  lemma {:induction false} SnakeOfWords(front: string, word: string)
    requires front != "" && word != "" && Upper(word[0])
    ensures Snake(front + word) == Snake(front) + "_" + Snake(word)
  {
    hide Snake;
    var k := |word| - 1;
    if k == 0 {
      assert word == [word[0]];
      SnakeStep(front, word[0]);
      SnakeOfOne(word[0]);
    } else {
      SnakeOfWords(front, word[..k]);
      assert front + word == front + word[..k] + [word[k]];
      assert word == word[..k] + [word[k]];
      SnakeStep(front + word[..k], word[k]);
      SnakeStep(word[..k], word[k]);
    }
  }

  /** Part of a name's subject: snake case without the `_event` suffix. */
  function Stem(name: string): string {
    RemoveSuffix(Snake(name), "_event")
  }

  predicate HasEventSuffix(name: string) {
    |name| > 5 && EndsWith(name, "Event")
  }

  function Bare(name: string): string {
    if HasEventSuffix(name) then name[..|name| - 5] else name
  }

  lemma SnakeOfEventSuffix(x: string)
    requires x != ""
    ensures Snake(x + "Event") == Snake(x) + "_event"
  {
    hide Snake;
    SnakeStep(x, 'E');
    SnakeStep(x + "E", 'v');
    SnakeStep(x + "Ev", 'e');
    SnakeStep(x + "Eve", 'n');
    SnakeStep(x + "Even", 't');
    assert x + "E" + ['v'] == x + "Ev" && x + "Ev" + ['e'] == x + "Eve";
    assert x + "Eve" + ['n'] == x + "Even" && x + "Even" + ['t'] == x + "Event";
  }

  lemma CamelOfEventSuffix(s: string)
    requires s != ""
    ensures Camel(s + "_event") == Camel(s) + "Event"
  {
    hide Camel;
    CamelStep(s, 'e');
    CamelStep(s + "_e", 'v');
    CamelStep(s + "_ev", 'e');
    CamelStep(s + "_eve", 'n');
    CamelStep(s + "_even", 't');
    assert s + ['_', 'e'] == s + "_e" && s + "_e" + ['v'] == s + "_ev" && s + "_ev" + ['e'] == s + "_eve";
    assert s + "_eve" + ['n'] == s + "_even" && s + "_even" + ['t'] == s + "_event";
  }

  lemma SnakeShowsSuffix(name: string)
    requires HasEventSuffix(name)
    ensures EndsWith(Snake(name), "_event")
  {
    var x := name[..|name| - 5];
    assert name == x + "Event";
    SnakeOfEventSuffix(x);
    var s := Snake(x) + "_event";
    assert s[|Snake(x)|..] == "_event";
  }

  lemma SuffixShowsInName(name: string)
    requires Pascal(name) && EndsWith(Snake(name), "_event")
    ensures HasEventSuffix(name)
  {
    SnakeInverts(name);
    var s := Snake(name);
    var front := s[..|s| - 6];
    assert s == front + "_event";
    assert s[|front|] == '_';
    CamelOfEventSuffix(front);
    var c := Camel(front);
    CamelNonempty(front);
    assert name == c + "Event";
    assert name[|c|..] == "Event";
  }

  lemma CamelNonempty(s: string)
    requires s != ""
    ensures Camel(s) != ""
  {
  }

  lemma StemIsSnakeOfBare(name: string)
    requires Pascal(name)
    ensures Pascal(Bare(name)) && Stem(name) == Snake(Bare(name))
  {
    if EndsWith(Snake(name), "_event") {
      SuffixShowsInName(name);
      var x := Bare(name);
      assert name == x + "Event";
      SnakeOfEventSuffix(x);
      assert (Snake(x) + "_event")[..|Snake(x)|] == Snake(x);
    } else if HasEventSuffix(name) {
      SnakeShowsSuffix(name);
    }
  }

  lemma BareDecides(a: string, b: string)
    ensures Bare(a) == Bare(b) <==>
            a == b || (a == b + "Event" && HasEventSuffix(a) && !HasEventSuffix(b)) ||
            (b == a + "Event" && HasEventSuffix(b) && !HasEventSuffix(a))
  {
    assert HasEventSuffix(a) ==> a == Bare(a) + "Event";
    assert HasEventSuffix(b) ==> b == Bare(b) + "Event";
    assert (a + "Event")[..|a|] == a && (b + "Event")[..|b|] == b;
  }

  /** Two Pascal-case names share a stem exactly when they are equal or one is the other plus a
      single `Event`. */
  lemma StemsShared(a: string, b: string)
    requires Pascal(a) && Pascal(b)
    ensures Stem(a) == Stem(b) <==>
            a == b || (a == b + "Event" && !HasEventSuffix(b)) || (b == a + "Event" && !HasEventSuffix(a))
  {
    StemIsSnakeOfBare(a);
    StemIsSnakeOfBare(b);
    SnakeInverts(Bare(a));
    SnakeInverts(Bare(b));
    BareDecides(a, b);
    assert (a + "Event")[|a|..] == "Event" && (b + "Event")[|b|..] == "Event";
  }

  function Split(s: string): (parts: seq<string>)
    ensures |parts| >= 1
  {
    if s == "" then [""]
    else
      var rest := Split(s[1..]);
      if s[0] == '.' then [""] + rest else [[s[0]] + rest[0]] + rest[1..]
  }

  /** `parts[:-2]` */
  function DropLastTwo(parts: seq<string>): seq<string> {
    if |parts| < 2 then [] else parts[..|parts| - 2]
  }

  function ModuleName(modName: string): string {
    ModuleOfParts(Split(modName))
  }

  /** The parts below `app.modules`, or all of them elsewhere. */
  function Inner(parts: seq<string>): seq<string> {
    if |parts| >= 2 && parts[0] == "app" && parts[1] == "modules" then parts[2..] else parts
  }

  /** The module is an `events` module, or lies right below a `domain` package. */
  predicate Tailed(inner: seq<string>) {
    |inner| > 0 && (inner[|inner| - 1] == "events" || (|inner| >= 2 && inner[|inner| - 2] == "domain"))
  }

  function ModuleOfParts(parts: seq<string>): string {
    var inner := Inner(parts);
    var trimmed := if Tailed(inner) then DropLastTwo(inner) else inner;
    if trimmed == [] then "unknown" else trimmed[0]
  }

  predicate DotFree(s: string) { '.' !in s }

  lemma {:induction false} SplitFirst(head: string, tail: string)
    requires DotFree(head)
    ensures Split(head + "." + tail) == [head] + Split(tail)
    ensures Split(head) == [head]
  {
    var s := head + "." + tail;
    if head == "" {
      assert s[1..] == tail;
    } else {
      SplitFirst(head[1..], tail);
      assert s[1..] == head[1..] + "." + tail;
      assert [head[0]] + head[1..] == head;
    }
  }

  function Dotted(a: string, b: string, c: string, d: string, e: string): string {
    a + "." + (b + "." + (c + "." + (d + "." + e)))
  }

  lemma SplitDotted(a: string, b: string, c: string, d: string, e: string)
    requires DotFree(a) && DotFree(b) && DotFree(c) && DotFree(d) && DotFree(e)
    ensures Split(Dotted(a, b, c, d, e)) == [a, b, c, d, e]
  {
    var t3 := d + "." + e;
    var t2 := c + "." + t3;
    var t1 := b + "." + t2;
    SplitFirst(d, e);
    SplitFirst(e, "");
    SplitFirst(c, t3);
    SplitFirst(b, t2);
    SplitFirst(a, t1);
  }

  /** Every `app.modules.<x>.domain.events` module, including one where `<x>` is itself `events` or
      `domain`, yields `<x>`. */
  lemma ModuleNameOfApp(x: string)
    requires DotFree(x)
    ensures ModuleName(Dotted("app", "modules", x, "domain", "events")) == x
  {
    SplitDotted("app", "modules", x, "domain", "events");
    var parts := ["app", "modules", x, "domain", "events"];
    assert parts[..2] == ["app", "modules"];
    assert parts[2..] == [x, "domain", "events"] && DropLastTwo(parts[2..]) == [x];
  }

  function Subject(p: Prefixes, part: string, name: string): string {
    p.events + "." + part + "." + Stem(name)
  }

  function SubjectForClass(p: Prefixes, modName: string, name: string): string {
    Subject(p, ModuleName(modName), name)
  }

  /** The subject of a class in the events module of application module `x`: the words of its name in lower
      case, joined by underscores, without a last word `Event`. */
  lemma SubjectOfClass(p: Prefixes, x: string, name: string, word: string)
    requires DotFree(x) && Pascal(name) && Pascal(word) && forall i | 0 < i < |word| :: !Upper(word[i])
    ensures var module' := Dotted("app", "modules", x, "domain", "events");
            SubjectForClass(p, module', name + word) ==
            p.events + "." + x + "." +
            if word == "Event" then Snake(name)
            else Snake(name) + "_" + [(word[0] as int + 32) as char] + word[1..]
  {
    hide Pascal, Split, Snake;
    ModuleNameOfApp(x);
    StemOfWords(name, word);
  }

  lemma StemOfWords(name: string, word: string)
    requires Pascal(name) && Pascal(word) && forall i | 0 < i < |word| :: !Upper(word[i])
    ensures Stem(name + word) ==
            if word == "Event" then Snake(name) else Snake(name) + "_" + [(word[0] as int + 32) as char] + word[1..]
  {
    var lower := [(word[0] as int + 32) as char] + word[1..];
    SnakeOfWord(word);
    SnakeOfWords(name, word);
    var s := Snake(name) + "_" + lower;
    hide Snake, Pascal;
    assert Snake(name + word) == s;
    if word == "Event" {
      assert lower == "event";
      assert s == Snake(name) + "_event" && s[|Snake(name)|..] == "_event" && s[..|Snake(name)|] == Snake(name);
    } else if EndsWith(s, "_event") {
      EventWord(word, s, Snake(name));
    }
  }

  /** Only the word `Event` ends a name in `_event`. */
  lemma EventWord(word: string, s: string, front: string)
    requires word != "" && Pascal(word) && EndsWith(s, "_event")
    requires s == front + "_" + ([(word[0] as int + 32) as char] + word[1..])
    ensures word == "Event"
  {
    var k := |s| - 6;
    var tail := s[k..];
    assert forall i | k <= i < |s| :: s[i] == tail[i - k];
    assert s[|front|] == '_' && s[|front| + 1] == (word[0] as int + 32) as char;
    forall i | 0 < i < |word| ensures s[|front| + 1 + i] == word[i] && Plain(word[i]) {}
    forall i | |front| < i < |s| ensures s[i] != '_' {
      assert i > |front| + 1 ==> s[i] == word[i - |front| - 1] && Plain(word[i - |front| - 1]);
    }
    assert s[k] == '_' && s[k + 1] == 'e' && s[k + 2] == 'v' && s[k + 3] == 'e' && s[k + 4] == 'n' && s[k + 5] == 't';
    assert |front| == k;
    assert |word| == 5 && word[0] == 'E' && word[1] == 'v' && word[2] == 'e' && word[3] == 'n' && word[4] == 't';
  }

  predicate NamesShare(a: string, b: string) {
    a == b || (a == b + "Event" && !HasEventSuffix(b)) || (b == a + "Event" && !HasEventSuffix(a))
  }

  lemma FirstDotSplits(m: string, s: string, m': string, s': string)
    requires DotFree(m) && DotFree(m') && m + "." + s == m' + "." + s'
    ensures m == m' && s == s'
  {
    SplitFirst(m, s);
    SplitFirst(m', s');
    assert ([m] + Split(s))[0] == m && ([m'] + Split(s'))[0] == m';
    assert (m + "." + s)[|m| + 1..] == s && (m' + "." + s')[|m'| + 1..] == s';
  }

  /** Two subjects are the same exactly when their module parts are and the class names differ at most by a
      single `Event` suffix. */
  lemma SamePart(p: Prefixes, m: string, a: string, m': string, b: string)
    requires DotFree(m) && DotFree(m') && Pascal(a) && Pascal(b)
    ensures Subject(p, m, a) == Subject(p, m', b) <==> m == m' && NamesShare(a, b)
    ensures Captured(p.events, Subject(p, m, a))
  {
    hide Stem, HasEventSuffix, Pascal, Split;
    StemsShared(a, b);
    var e := p.events + ".";
    assert Subject(p, m, a) == e + (m + "." + Stem(a));
    assert Subject(p, m', b) == e + (m' + "." + Stem(b));
    assert (e + (m + "." + Stem(a)))[|e|..] == m + "." + Stem(a);
    assert (e + (m' + "." + Stem(b)))[|e|..] == m' + "." + Stem(b);
    if m + "." + Stem(a) == m' + "." + Stem(b) {
      FirstDotSplits(m, Stem(a), m', Stem(b));
    }
  }

  lemma {:induction false} PartsAreDotFree(s: string)
    ensures forall i | 0 <= i < |Split(s)| :: DotFree(Split(s)[i])
  {
    if s != "" {
      PartsAreDotFree(s[1..]);
    }
  }

  /** What the subject of a class keeps of its module: the first part below `app.modules`, whatever comes
      after it, unless there is none or an `events` or `domain` ending swallows it. */
  lemma ModuleNameIs(modName: string)
    ensures var parts := Split(modName);
            var below := if |parts| >= 2 && parts[..2] == ["app", "modules"] then parts[2..] else parts;
            var n := |below|;
            ModuleName(modName) ==
            if n == 0 || (n <= 2 && below[n - 1] == "events") || (n == 2 && below[0] == "domain") then "unknown"
            else below[0]
    ensures DotFree(ModuleName(modName))
  {
    PartsAreDotFree(modName);
    var parts := Split(modName);
    assert |parts| >= 2 ==> (parts[..2] == ["app", "modules"] <==> parts[0] == "app" && parts[1] == "modules");
  }

  /** Two event classes are published on one subject exactly when the first parts of their modules below
      `app.modules` agree, or are lost in both, and their names differ at most by a single `Event` suffix; so
      classes of one name in different files of one application module share a subject. */
  lemma SubjectsShared(p: Prefixes, modName: string, a: string, modName': string, b: string)
    requires Pascal(a) && Pascal(b)
    ensures SubjectForClass(p, modName, a) == SubjectForClass(p, modName', b) <==>
            ModuleName(modName) == ModuleName(modName') && NamesShare(a, b)
    ensures Captured(p.events, SubjectForClass(p, modName, a))
  {
    ModuleNameIs(modName);
    ModuleNameIs(modName');
    SamePart(p, ModuleName(modName), a, ModuleName(modName'), b);
  }

  lemma SplitNested(a: string, b: string, x: string, rest: string)
    requires DotFree(a) && DotFree(b) && DotFree(x)
    ensures Split(a + "." + (b + "." + (x + "." + rest))) == [a, b, x] + Split(rest)
  {
    hide Split;
    SplitFirst(x, rest);
    SplitFirst(b, x + "." + rest);
    SplitFirst(a, b + "." + (x + "." + rest));
    assert [a] + ([b] + ([x] + Split(rest))) == [a, b, x] + Split(rest);
  }

  /** Every module of one application module with something between its name and the ending keeps just that
      name, so such modules collide. */
  lemma FilesOfOneModuleCollide(x: string, rest: string)
    requires DotFree(x) && |Split(rest)| >= 2
    ensures ModuleName("app" + "." + ("modules" + "." + (x + "." + rest))) == x
  {
    var app, modules := "app", "modules";
    SplitNested(app, modules, x, rest);
    hide Split, Tailed, ModuleName;
    var modName := app + "." + (modules + "." + (x + "." + rest));
    ModuleNameIs(modName);
    assert Split(modName)[2..] == [x] + Split(rest);
  }

  function DurablePiece(c: char): string {
    if c == '.' then "_" else if c == '*' || c == '>' then "all" else [c]
  }

  function DurableName(s: string): string {
    if s == "" then "" else DurablePiece(s[0]) + DurableName(s[1..])
  }

  predicate Literal(s: string) { forall i | 0 <= i < |s| :: s[i] != '.' && s[i] != '*' && s[i] != '>' }

  lemma {:induction false} DurableOfConcat(a: string, b: string)
    ensures DurableName(a + b) == DurableName(a) + DurableName(b)
  {
    if a == "" {
      assert a + b == b;
    } else {
      DurableOfConcat(a[1..], b);
      var t := a + b;
      assert t[0] == a[0] && t[1..] == a[1..] + b;
      Associates(DurablePiece(a[0]), DurableName(a[1..]), DurableName(b));
    }
  }

  lemma Associates(a: string, b: string, c: string)
    ensures a + (b + c) == a + b + c
  {
  }

  lemma {:induction false} DurableOfLiteral(a: string)
    requires Literal(a)
    ensures DurableName(a) == a
  {
    if a != "" {
      DurableOfLiteral(a[1..]);
      assert a == [a[0]] + a[1..];
    }
  }

  function Joined(m: string, s: string): string { m + "_" + s }

  lemma DurableOfSubject(events: string, m: string, s: string)
    requires Literal(m) && Literal(s)
    ensures DurableName(events + "." + m + "." + s) == DurableName(events) + "_" + Joined(m, s)
  {
    var inner := "." + s;
    var tail := m + inner;
    Associates(events + ".", m, inner);
    Associates(events, ".", tail);
    assert events + "." + m + "." + s == events + ("." + tail) by {
      Associates(events + "." + m, ".", s);
    }
    DurableOfConcat(events, "." + tail);
    DurableOfDot(tail);
    assert DurableName(tail) == Joined(m, s) by {
      DurableOfConcat(m, inner);
      DurableOfLiteral(m);
      DurableOfLiteral(s);
      DurableOfDot(s);
      Associates(m, "_", s);
    }
    Associates(DurableName(events), "_", Joined(m, s));
  }

  lemma DurableOfDot(t: string)
    ensures DurableName("." + t) == "_" + DurableName(t)
  {
    assert ("." + t)[1..] == t;
  }

  /** `m'` absorbs the words `x` that `s` starts with. */
  predicate Absorbs(m: string, s: string, m': string, s': string, x: string) {
    m' == m + "_" + x && s == x + "_" + s'
  }

  /** Two subjects under one prefix get one durable name exactly when they are the same subject or
      one module name is the other extended by leading words of its event name. */
  lemma DurableNamesCollide(events: string, m: string, s: string, m': string, s': string)
    requires Literal(m) && Literal(s) && Literal(m') && Literal(s')
    ensures DurableName(events + "." + m + "." + s) == DurableName(events + "." + m' + "." + s') <==>
            || (m == m' && s == s')
            || (exists x :: Absorbs(m, s, m', s', x))
            || (exists x :: Absorbs(m', s', m, s, x))
    ensures '_' !in m && '_' !in m' &&
            DurableName(events + "." + m + "." + s) == DurableName(events + "." + m' + "." + s') ==>
            m == m' && s == s'
  {
    DurableOfSubject(events, m, s);
    DurableOfSubject(events, m', s');
    var head, j, j' := DurableName(events) + "_", Joined(m, s), Joined(m', s');
    assert (head + j)[|head|..] == j && (head + j')[|head|..] == j';
    JoinedCollide(m, s, m', s');
  }

  lemma JoinedCollide(m: string, s: string, m': string, s': string)
    ensures Joined(m, s) == Joined(m', s') <==>
            || (m == m' && s == s')
            || (exists x :: Absorbs(m, s, m', s', x))
            || (exists x :: Absorbs(m', s', m, s, x))
    ensures '_' !in m && '_' !in m' && Joined(m, s) == Joined(m', s') ==> m == m' && s == s'
  {
    if Joined(m, s) == Joined(m', s') {
      if |m| <= |m'| { JoinedEqual(m, s, m', s'); } else { JoinedEqual(m', s', m, s); }
    }
    forall x | Absorbs(m, s, m', s', x) ensures Joined(m, s) == Joined(m', s') && '_' in m' {
      AbsorbingJoins(m, s, m', s', x);
    }
    forall x | Absorbs(m', s', m, s, x) ensures Joined(m, s) == Joined(m', s') && '_' in m {
      AbsorbingJoins(m', s', m, s, x);
    }
  }

  lemma AbsorbingJoins(m: string, s: string, m': string, s': string, x: string)
    requires Absorbs(m, s, m', s', x)
    ensures Joined(m, s) == Joined(m', s') && '_' in m'
  {
    assert m + "_" + (x + "_" + s') == (m + "_" + x) + "_" + s';
    assert m'[|m|] == '_';
  }

  lemma JoinedEqual(m: string, s: string, m': string, s': string)
    requires Joined(m, s) == Joined(m', s') && |m| <= |m'|
    ensures (m == m' && s == s') || exists x :: Absorbs(m, s, m', s', x)
  {
    var j := Joined(m, s);
    assert j[..|m|] == m && j[|m| + 1..] == s && j[|m|] == '_';
    assert j[..|m'|] == m' && j[|m'| + 1..] == s' && j[|m'|] == '_';
    if |m| < |m'| {
      var x := j[|m| + 1..|m'|];
      assert j[|m| + 1..] == x + "_" + j[|m'| + 1..];
      assert Absorbs(m, s, m', s', x);
    }
  }
}
