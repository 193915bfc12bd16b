/**
 The /etc/hosts rewrite: drops the IPv6 mappings of names that also have an IPv4 line, name by name
 (src/hosts_ipv4.py).
 */
module HostsFile {
  import opened Wrappers

  // ------------------------------------------------------------------ one line

  predicate Space(c: char) {
    c in {' ', '\t', '\n', '\r'}
  }

  function Lower(s: string): string {
    seq(|s|, i requires 0 <= i < |s| => if 'A' <= s[i] <= 'Z' then s[i] - 'A' + 'a' else s[i])
  }

  /** What precedes a '#'. */
  function Payload(line: string): string {
    if line == "" || line[0] == '#' then "" else [line[0]] + Payload(line[1..])
  }

  /** The comment, from its '#' on. */
  function Comment(line: string): string {
    if line == "" || line[0] == '#' then line else Comment(line[1..])
  }

  lemma {:induction false} PayloadAndComment(line: string)
    ensures line == Payload(line) + Comment(line) && '#' !in Payload(line)
    ensures (Comment(line) == "" || Comment(line)[0] == '#')
  {
    if line != "" && line[0] != '#' { PayloadAndComment(line[1..]); }
  }

  lemma {:induction false} SplitAt(payload: string, comment: string)
    requires '#' !in payload && (comment == "" || comment[0] == '#')
    ensures Payload(payload + comment) == payload && Comment(payload + comment) == comment
  {
    if payload == "" {
      assert payload + comment == comment;
    } else {
      SplitAt(payload[1..], comment);
      assert payload[0] in payload && (payload + comment)[1..] == payload[1..] + comment;
    }
  }

  /** The run of characters up to the first whitespace. */
  function WordAt(s: string): (w: string)
    ensures |w| <= |s| && (s != "" && !Space(s[0]) ==> w != "")
  {
    if s == "" || Space(s[0]) then "" else [s[0]] + WordAt(s[1..])
  }

  /** The maximal runs without whitespace. */
  function Words(s: string): seq<string>
    decreases |s|
  {
    if s == "" then [] else if Space(s[0]) then Words(s[1..]) else [WordAt(s)] + Words(s[|WordAt(s)|..])
  }

  predicate IsWord(w: string) {
    w != "" && forall c :: c in w ==> !Space(c)
  }

  lemma {:induction false} WordAtIsAWord(s: string)
    ensures forall c :: c in WordAt(s) ==> !Space(c) && c in s
  {
    if s != "" && !Space(s[0]) { WordAtIsAWord(s[1..]); }
  }

  lemma {:induction false} WordsAreWords(s: string)
    ensures forall w :: w in Words(s) ==> IsWord(w) && forall c :: c in w ==> c in s
    decreases |s|
  {
    if s != "" {
      WordAtIsAWord(s);
      WordsAreWords(if Space(s[0]) then s[1..] else s[|WordAt(s)|..]);
    }
  }

  lemma {:induction false} WordAtOfWord(w: string, rest: string)
    requires (forall c :: c in w ==> !Space(c)) && (rest == "" || Space(rest[0]))
    ensures WordAt(w + rest) == w
  {
    if w == "" {
      assert w + rest == rest;
    } else {
      assert w[0] in w && (w + rest)[1..] == w[1..] + rest;
      WordAtOfWord(w[1..], rest);
    }
  }

  lemma WordsOfWord(w: string, rest: string)
    requires IsWord(w) && (rest == "" || Space(rest[0]))
    ensures Words(w + rest) == [w] + Words(rest)
  {
    WordAtOfWord(w, rest);
    assert w[0] in w && (w + rest)[0] == w[0] && (w + rest)[|w|..] == rest;
  }

  /** Each word after a space. */
  function Spaced(words: seq<string>): string {
    if words == [] then "" else " " + words[0] + Spaced(words[1..])
  }

  lemma WordAfterSpace(c: char, w: string, rest: string)
    requires Space(c) && IsWord(w) && (rest == "" || Space(rest[0]))
    ensures Words([c] + w + rest) == [w] + Words(rest)
  {
    assert ([c] + w + rest)[1..] == w + rest && ([c] + w + rest)[0] == c;
    WordsOfWord(w, rest);
  }

  lemma SpacedStarts(words: seq<string>, rest: string)
    requires rest == "" || Space(rest[0])
    ensures Spaced(words) + rest == "" || Space((Spaced(words) + rest)[0])
  {
  }

  lemma {:induction false} WordsOfSpaced(words: seq<string>, rest: string)
    requires (forall w :: w in words ==> IsWord(w)) && (rest == "" || Space(rest[0]))
    ensures Words(Spaced(words) + rest) == words + Words(rest)
  {
    if words == [] {
      assert Spaced(words) + rest == rest && words + Words(rest) == Words(rest);
    } else {
      var tail := Spaced(words[1..]) + rest;
      WordsOfSpaced(words[1..], rest);
      SpacedStarts(words[1..], rest);
      assert words[0] in words;
      WordAfterSpace(' ', words[0], tail);
      assert Spaced(words) + rest == [' '] + words[0] + tail;
      SplitFirst(words, Words(rest));
    }
  }

  lemma SplitFirst(words: seq<string>, rest: seq<string>)
    requires words != []
    ensures [words[0]] + (words[1..] + rest) == words + rest
  {
  }

  // ------------------------------------------------------------------ the mappings of a file

  datatype Mapping = Mapping(address: string, names: seq<string>)

  function Fields(line: string): Option<Mapping> {
    var words := Words(Payload(line));
    if |words| < 2 then None else Some(Mapping(words[0], words[1..]))
  }

  predicate IsV6(address: string) {
    ':' in address
  }

  /** A line that ends in its one newline. */
  predicate Terminated(line: string) {
    line != "" && line[|line| - 1] == '\n' && '\n' !in line[..|line| - 1]
  }

  ghost predicate AllTerminated(lines: seq<string>) {
    forall i :: 0 <= i < |lines| ==> Terminated(lines[i])
  }

  /** A line of the file maps the name, as written, to the address. */
  predicate MapsAt(line: string, address: string, name: string) {
    Fields(line).Some? && Fields(line).value.address == address && name in Fields(line).value.names
  }

  ghost predicate Maps(lines: seq<string>, address: string, name: string) {
    exists i :: 0 <= i < |lines| && MapsAt(lines[i], address, name)
  }

  /** Some address for the name, whatever its case. */
  ghost predicate Resolves(lines: seq<string>, name: string) {
    exists address, alias :: Maps(lines, address, alias) && Lower(alias) == Lower(name)
  }

  // ------------------------------------------------------------------ the rewrite

  function V4NamesAt(line: string, wanted: set<string>): set<string> {
    if Fields(line).None? || IsV6(Fields(line).value.address) then {}
    else
      var names := Fields(line).value.names;
      set i | 0 <= i < |names| && Lower(names[i]) in wanted :: Lower(names[i])
  }

  /** The wanted names that have an IPv4 line. */
  function V4Names(lines: seq<string>, wanted: set<string>): set<string> {
    if lines == [] then {} else V4Names(lines[..|lines| - 1], wanted) + V4NamesAt(lines[|lines| - 1], wanted)
  }

  predicate Touched(line: string, removable: set<string>) {
    && Fields(line).Some? && IsV6(Fields(line).value.address)
    && exists i :: 0 <= i < |Fields(line).value.names| && Lower(Fields(line).value.names[i]) in removable
  }

  function Survivors(names: seq<string>, removable: set<string>): seq<string> {
    if names == [] then []
    else
      var rest := Survivors(names[1..], removable);
      if Lower(names[0]) in removable then rest else [names[0]] + rest
  }

  function WithoutNewline(s: string): string {
    if s != "" && s[|s| - 1] == '\n' then s[..|s| - 1] else s
  }

  function Base(address: string, names: seq<string>): string
    requires names != []
  {
    address + "\t" + names[0] + Spaced(names[1..])
  }

  /** The edited line: address, surviving names, and the comment and line ending it had. */
  function Rebuilt(line: string, names: seq<string>): string
    requires Fields(line).Some? && names != []
  {
    Base(Fields(line).value.address, names)
    + (if Comment(line) != "" then " " + WithoutNewline(Comment(line)) else "")
    + (if line != "" && line[|line| - 1] == '\n' then "\n" else "")
  }

  /** What becomes of a line: itself, its edit, or nothing. */
  function Stripped(line: string, removable: set<string>): seq<string> {
    if !Touched(line, removable) then [line]
    else
      var names := Survivors(Fields(line).value.names, removable);
      if names == [] then [] else [Rebuilt(line, names)]
  }

  function StrippedAll(lines: seq<string>, removable: set<string>): seq<string> {
    if lines == [] then [] else StrippedAll(lines[..|lines| - 1], removable) + Stripped(lines[|lines| - 1], removable)
  }

  function ChangedAll(lines: seq<string>, removable: set<string>): seq<string> {
    if lines == [] then []
    else
      var last := lines[|lines| - 1];
      ChangedAll(lines[..|lines| - 1], removable) + if Touched(last, removable) then [WithoutNewline(last)] else []
  }

  function Wanted(names: seq<string>): set<string> {
    set i | 0 <= i < |names| :: Lower(names[i])
  }

  /** Two passes: which wanted names have an IPv4 line, then every line rewritten or kept. */
  method StripIpv6Lines(lines: seq<string>, names: seq<string>) returns (kept: seq<string>, changed: seq<string>)
    ensures kept == StrippedAll(lines, V4Names(lines, Wanted(names)))
    ensures changed == ChangedAll(lines, V4Names(lines, Wanted(names)))
  {
    var wanted, removable := Wanted(names), {};
    for i := 0 to |lines|
      invariant removable == V4Names(lines[..i], wanted)
    {
      assert lines[..i + 1][..i] == lines[..i];
      var parsed := Fields(lines[i]);
      if parsed.Some? && !IsV6(parsed.value.address) {
        removable := removable + V4NamesAt(lines[i], wanted);
      }
    }
    assert lines[..|lines|] == lines;
    kept, changed := [], [];
    for i := 0 to |lines|
      invariant kept == StrippedAll(lines[..i], removable) && changed == ChangedAll(lines[..i], removable)
    {
      assert lines[..i + 1][..i] == lines[..i];
      if !Touched(lines[i], removable) {
        kept := kept + [lines[i]];
      } else {
        changed := changed + [WithoutNewline(lines[i])];
        var survivors := Survivors(Fields(lines[i]).value.names, removable);
        if survivors != [] { kept := kept + [Rebuilt(lines[i], survivors)]; }
      }
    }
  }

  // ------------------------------------------------------------------ an edited line reads back

  lemma {:induction false} SurvivorsAre(names: seq<string>, removable: set<string>)
    ensures forall n :: n in Survivors(names, removable) <==> n in names && Lower(n) !in removable
  {
    if names != [] {
      SurvivorsAre(names[1..], removable);
      assert names == [names[0]] + names[1..];
    }
  }

  lemma {:induction false} SpacedHasNo(words: seq<string>, c: char)
    requires c != ' ' && forall w :: w in words ==> c !in w
    ensures c !in Spaced(words)
  {
    if words != [] { SpacedHasNo(words[1..], c); }
  }

  /** The words of a rewritten payload are the address and the names. */
  lemma NoWords(rest: string)
    requires rest in {" ", "\n"}
    ensures Words(rest) == []
  {
    assert rest[1..] == "";
  }

  lemma WordsOfRebuilt(address: string, names: seq<string>, rest: string)
    requires IsWord(address) && names != [] && (forall n :: n in names ==> IsWord(n)) && rest in {" ", "\n"}
    ensures Words(Base(address, names) + rest) == [address] + names
  {
    var tail := Spaced(names[1..]) + rest;
    WordsOfSpaced(names[1..], rest);
    SpacedStarts(names[1..], rest);
    NoWords(rest);
    assert names[0] in names;
    WordAfterSpace('\t', names[0], tail);
    var after := ['\t'] + names[0] + tail;
    WordsOfWord(address, after);
    assert Base(address, names) + rest == address + after;
    SplitFirst(names, []);
  }

  lemma BaseHasNo(address: string, names: seq<string>, c: char)
    requires names != [] && c !in {' ', '\t'} && c !in address && forall n :: n in names ==> c !in n
    ensures c !in Base(address, names)
  {
    SpacedHasNo(names[1..], c);
    assert names[0] in names;
  }

  /** The words of a line hold neither whitespace nor a '#'. */
  lemma FieldsAreWords(line: string)
    requires Fields(line).Some?
    ensures var m := Fields(line).value;
      && IsWord(m.address) && '#' !in m.address && m.names != []
      && forall n :: n in m.names ==> IsWord(n) && '#' !in n
  {
    PayloadAndComment(line);
    WordsAreWords(Payload(line));
    var words := Words(Payload(line));
    assert words[0] in words && words[1] in words[1..];
    forall n | n in words[1..] ensures n in words {}
  }

  lemma CommentEnds(line: string)
    requires Terminated(line) && Comment(line) != ""
    ensures WithoutNewline(Comment(line)) + "\n" == Comment(line) && '\n' !in WithoutNewline(Comment(line))
  {
    PayloadAndComment(line);
    var p, c := Payload(line), Comment(line);
    assert c[|c| - 1] == line[|line| - 1];
    assert line[..|line| - 1] == p + c[..|c| - 1];
  }

  /** An edited line still ends in its one newline, and reads back as its address and surviving names with
      the comment it had. */
  lemma RebuiltReadsBack(line: string, names: seq<string>)
    requires Terminated(line) && Fields(line).Some? && names != []
    requires forall n :: n in names ==> n in Fields(line).value.names
    ensures var r := Rebuilt(line, names);
      Terminated(r) && Comment(r) == Comment(line) && Fields(r) == Some(Mapping(Fields(line).value.address, names))
  {
    var address := Fields(line).value.address;
    var base, comment := Base(address, names), Comment(line);
    FieldsAreWords(line);
    BaseHasNo(address, names, '#');
    BaseHasNo(address, names, '\n');
    PayloadAndComment(line);
    if comment == "" {
      SplitAt(base + "\n", "");
      WordsOfRebuilt(address, names, "\n");
      assert Rebuilt(line, names) == base + "\n" + "" == base + "\n";
    } else {
      CommentEnds(line);
      SplitAt(base + " ", comment);
      WordsOfRebuilt(address, names, " ");
      assert Rebuilt(line, names) == base + " " + comment;
    }
  }

  // ------------------------------------------------------------------ what the rewrite keeps and drops

  /** A mapping the rewrite removes. */
  predicate Dropped(address: string, name: string, removable: set<string>) {
    IsV6(address) && Lower(name) in removable
  }

  lemma LineKeepsTheRest(line: string, removable: set<string>, address: string, name: string)
    requires Terminated(line)
    ensures Maps(Stripped(line, removable), address, name)
      <==> MapsAt(line, address, name) && !Dropped(address, name, removable)
  {
    var out := Stripped(line, removable);
    if !Touched(line, removable) {
      assert out == [line] && out[0] == line;
      if MapsAt(line, address, name) {
        var i :| 0 <= i < |Fields(line).value.names| && Fields(line).value.names[i] == name;
      }
    } else {
      var names := Survivors(Fields(line).value.names, removable);
      SurvivorsAre(Fields(line).value.names, removable);
      if names == [] {
        assert out == [];
        if MapsAt(line, address, name) { assert name !in names; }
      } else {
        RebuiltReadsBack(line, names);
        assert out == [Rebuilt(line, names)] && out[0] == Rebuilt(line, names);
      }
    }
  }

  lemma MapsOfConcat(a: seq<string>, b: seq<string>, address: string, name: string)
    ensures Maps(a + b, address, name) <==> Maps(a, address, name) || Maps(b, address, name)
  {
    if i :| 0 <= i < |a| && MapsAt(a[i], address, name) { assert (a + b)[i] == a[i]; }
    if i :| 0 <= i < |b| && MapsAt(b[i], address, name) { assert (a + b)[|a| + i] == b[i]; }
  }

  /** Exactly the IPv6 mappings of removable names go; every other mapping of the file stays. */
  lemma {:induction false} DropsExactly(lines: seq<string>, removable: set<string>, address: string, name: string)
    requires AllTerminated(lines)
    ensures Maps(StrippedAll(lines, removable), address, name)
      <==> Maps(lines, address, name) && !Dropped(address, name, removable)
  {
    if lines != [] {
      var init, last := lines[..|lines| - 1], lines[|lines| - 1];
      DropsExactly(init, removable, address, name);
      LineKeepsTheRest(last, removable, address, name);
      MapsOfConcat(StrippedAll(init, removable), Stripped(last, removable), address, name);
      MapsOfConcat(init, [last], address, name);
      assert [last][0] == last && lines == init + [last];
    }
  }

  /** Each line's result takes its place: lines before and after it stay before and after. */
  lemma {:induction false} EditsStayInPlace(a: seq<string>, b: seq<string>, removable: set<string>)
    ensures StrippedAll(a + b, removable) == StrippedAll(a, removable) + StrippedAll(b, removable)
  {
    if b == [] {
      assert a + b == a && StrippedAll(a, removable) + [] == StrippedAll(a, removable);
    } else {
      assert (a + b)[..|a + b| - 1] == a + b[..|b| - 1] && (a + b)[|a + b| - 1] == b[|b| - 1];
      EditsStayInPlace(a, b[..|b| - 1], removable);
      assert (StrippedAll(a, removable) + StrippedAll(b[..|b| - 1], removable)) + Stripped(b[|b| - 1], removable)
          == StrippedAll(a, removable) + (StrippedAll(b[..|b| - 1], removable) + Stripped(b[|b| - 1], removable));
    }
  }

  lemma V4NamesAtLine(line: string, wanted: set<string>, x: string)
    ensures x in V4NamesAt(line, wanted) <==>
              x in wanted && exists address, name :: MapsAt(line, address, name) && !IsV6(address) && Lower(name) == x
  {
    if x in V4NamesAt(line, wanted) {
      var m := Fields(line).value;
      var i :| 0 <= i < |m.names| && Lower(m.names[i]) == x;
      assert MapsAt(line, m.address, m.names[i]);
    }
    if address, name :| MapsAt(line, address, name) && !IsV6(address) && Lower(name) == x && x in wanted {
      var i :| 0 <= i < |Fields(line).value.names| && Fields(line).value.names[i] == name;
    }
  }

  /** The removable names are the wanted ones that an IPv4 line maps. */
  lemma {:induction false} V4NamesAreMapped(lines: seq<string>, wanted: set<string>, x: string)
    ensures x in V4Names(lines, wanted) <==>
              x in wanted && exists address, name :: Maps(lines, address, name) && !IsV6(address) && Lower(name) == x
  {
    if lines != [] {
      var init, last := lines[..|lines| - 1], lines[|lines| - 1];
      V4NamesAreMapped(init, wanted, x);
      V4NamesAtLine(last, wanted, x);
      assert lines == init + [last] && [last][0] == last;
      forall address, name ensures Maps(lines, address, name)
          <==> Maps(init, address, name) || MapsAt(last, address, name) {
        MapsOfConcat(init, [last], address, name);
      }
    }
  }

  /** The file's target names that an IPv4 line maps: what the rewrite removes from IPv6 lines. */
  function Removable(lines: seq<string>, names: seq<string>): set<string> {
    V4Names(lines, Wanted(names))
  }

  /** Some listed name is this one, whatever its case. */
  ghost predicate Listed(names: seq<string>, name: string) {
    exists i :: 0 <= i < |names| && Lower(names[i]) == Lower(name)
  }

  /** Some address without a colon is mapped to the name, whatever its case. */
  ghost predicate HasIpv4(lines: seq<string>, name: string) {
    exists address, alias :: Maps(lines, address, alias) && ':' !in address && Lower(alias) == Lower(name)
  }

  /** The rewrite takes away a mapping when its address has a colon, its name is listed, and the name has an
      address without one; it takes away no other mapping and adds none. */
  lemma RewriteDropsExactly(lines: seq<string>, names: seq<string>, address: string, name: string)
    requires AllTerminated(lines)
    ensures Maps(StrippedAll(lines, Removable(lines, names)), address, name)
      <==> Maps(lines, address, name) && !(':' in address && Listed(names, name) && HasIpv4(lines, name))
  {
    DropsExactly(lines, Removable(lines, names), address, name);
    V4NamesAreMapped(lines, Wanted(names), Lower(name));
    assert Lower(name) in Wanted(names) <==> Listed(names, name);
  }

  /** Every name that had an address still has one. */
  lemma NamesStayResolvable(lines: seq<string>, names: seq<string>, name: string)
    requires AllTerminated(lines) && Resolves(lines, name)
    ensures Resolves(StrippedAll(lines, Removable(lines, names)), name)
  {
    var removable := Removable(lines, names);
    var address, alias :| Maps(lines, address, alias) && Lower(alias) == Lower(name);
    if Dropped(address, alias, removable) {
      V4NamesAreMapped(lines, Wanted(names), Lower(alias));
      var v4, other :| Maps(lines, v4, other) && !IsV6(v4) && Lower(other) == Lower(alias);
      DropsExactly(lines, removable, v4, other);
    } else {
      DropsExactly(lines, removable, address, alias);
    }
  }

  // ------------------------------------------------------------------ doing it again

  lemma OutputLine(line: string, removable: set<string>)
    requires Terminated(line)
    ensures AllTerminated(Stripped(line, removable))
    ensures forall out :: out in Stripped(line, removable) ==> !Touched(out, removable)
  {
    if Touched(line, removable) {
      var names := Survivors(Fields(line).value.names, removable);
      SurvivorsAre(Fields(line).value.names, removable);
      if names != [] {
        RebuiltReadsBack(line, names);
        forall i | 0 <= i < |names| ensures Lower(names[i]) !in removable { assert names[i] in names; }
      }
    }
  }

  lemma {:induction false} OutputIsUntouched(lines: seq<string>, removable: set<string>)
    requires AllTerminated(lines)
    ensures AllTerminated(StrippedAll(lines, removable))
    ensures forall out :: out in StrippedAll(lines, removable) ==> !Touched(out, removable)
  {
    if lines != [] {
      OutputIsUntouched(lines[..|lines| - 1], removable);
      OutputLine(lines[|lines| - 1], removable);
    }
  }

  /** An untouched line at the end stays and reports nothing. */
  lemma UntouchedLast(lines: seq<string>, removable: set<string>)
    requires lines != [] && !Touched(lines[|lines| - 1], removable)
    ensures StrippedAll(lines, removable) == StrippedAll(lines[..|lines| - 1], removable) + [lines[|lines| - 1]]
    ensures ChangedAll(lines, removable) == ChangedAll(lines[..|lines| - 1], removable)
  {
  }

  lemma {:induction false} UntouchedStay(lines: seq<string>, removable: set<string>)
    requires forall line :: line in lines ==> !Touched(line, removable)
    ensures StrippedAll(lines, removable) == lines && ChangedAll(lines, removable) == []
  {
    if lines != [] {
      assert lines[|lines| - 1] in lines;
      UntouchedLast(lines, removable);
      UntouchedStay(lines[..|lines| - 1], removable);
    }
  }

  lemma SameRemovable(lines: seq<string>, names: seq<string>)
    requires AllTerminated(lines)
    ensures Removable(StrippedAll(lines, Removable(lines, names)), names) == Removable(lines, names)
  {
    var removable := Removable(lines, names);
    var out := StrippedAll(lines, removable);
    forall x ensures x in Removable(out, names) <==> x in removable {
      V4NamesAreMapped(lines, Wanted(names), x);
      V4NamesAreMapped(out, Wanted(names), x);
      forall address, name | !IsV6(address) ensures Maps(out, address, name) <==> Maps(lines, address, name) {
        DropsExactly(lines, removable, address, name);
      }
    }
  }

  /** A second rewrite changes nothing and reports nothing. */
  lemma RewriteIsIdempotent(lines: seq<string>, names: seq<string>)
    requires AllTerminated(lines)
    ensures var out := StrippedAll(lines, Removable(lines, names));
      && AllTerminated(out) && StrippedAll(out, Removable(out, names)) == out
         && ChangedAll(out, Removable(out, names)) == []
  {
    OutputIsUntouched(lines, Removable(lines, names));
    SameRemovable(lines, names);
    UntouchedStay(StrippedAll(lines, Removable(lines, names)), Removable(lines, names));
  }

  // ------------------------------------------------------------------ the file's text

  function Text(lines: seq<string>): string {
    if lines == [] then "" else lines[0] + Text(lines[1..])
  }

  function LineAt(text: string): (line: string)
    ensures |line| <= |text| && (text != "" ==> line != "")
  {
    if text == "" then "" else if text[0] == '\n' then "\n" else [text[0]] + LineAt(text[1..])
  }

  /** The lines of a text, each with its line ending. */
  function Lines(text: string): seq<string>
    decreases |text|
  {
    if text == "" then [] else [LineAt(text)] + Lines(text[|LineAt(text)|..])
  }

  lemma {:induction false} LineAtOfLine(line: string, rest: string)
    requires Terminated(line)
    ensures LineAt(line + rest) == line
  {
    if |line| > 1 {
      assert line[..|line| - 1][0] == line[0] && line[1..][..|line[1..]| - 1] == line[..|line| - 1][1..];
      assert (line + rest)[1..] == line[1..] + rest;
      LineAtOfLine(line[1..], rest);
    }
  }

  /** Written lines read back as they were. */
  lemma {:induction false} LinesOfText(lines: seq<string>)
    requires AllTerminated(lines)
    ensures Lines(Text(lines)) == lines
  {
    if lines != [] {
      assert Terminated(lines[0]);
      LinesOfText(lines[1..]);
      LineAtOfLine(lines[0], Text(lines[1..]));
      assert Text(lines)[|lines[0]|..] == Text(lines[1..]);
    }
  }

  lemma {:induction false} LineAtEnds(text: string)
    requires text != "" && text[|text| - 1] == '\n'
    ensures Terminated(LineAt(text))
    ensures (|LineAt(text)| < |text| ==> text[|text| - 1] == text[|LineAt(text)|..][|text| - |LineAt(text)| - 1])
  {
    if text[0] != '\n' { LineAtEnds(text[1..]); }
  }

  lemma {:induction false} LinesAreTerminated(text: string)
    requires text == "" || text[|text| - 1] == '\n'
    ensures AllTerminated(Lines(text))
    decreases |text|
  {
    if text != "" {
      LineAtEnds(text);
      LinesAreTerminated(text[|LineAt(text)|..]);
    }
  }

  function StripText(text: string, names: seq<string>): string {
    Text(StrippedAll(Lines(text), Removable(Lines(text), names)))
  }

  /** So rewriting the written file again leaves its text as it is. */
  lemma TextIsIdempotent(text: string, names: seq<string>)
    requires text == "" || text[|text| - 1] == '\n'
    ensures StripText(StripText(text, names), names) == StripText(text, names)
  {
    LinesAreTerminated(text);
    RewriteIsIdempotent(Lines(text), names);
    LinesOfText(StrippedAll(Lines(text), Removable(Lines(text), names)));
  }
}
