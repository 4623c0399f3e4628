/**
 * The htpasswd file as text (htpasswd/src/utils.ts): a parser that turns a body into a map
 * of hashes, and the editors that add, replace and remove a line of it.
 *
 * The password hash and the comment of a generated line are arguments.
 */
module Htpasswd {
  import opened Common

  datatype Error = UnsafeName | UserExists | NoSuchUser | WrongPassword

  // ---------------------------------------------------------------- JavaScript strings

  /** String.split with a one-character separator. */
  function Split(s: string, c: char): (parts: seq<string>)
    ensures |parts| > 0
  {
    if s == "" then [""] else Put(s[0], Split(s[1..], c), c)
  }

  // The parts with one more character in front of the text.
  function Put(x: char, parts: seq<string>, c: char): seq<string>
    requires parts != []
  {
    if x == c then [""] + parts else [[x] + parts[0]] + parts[1..]
  }

  /** Array.join with a one-character separator. */
  function Join(parts: seq<string>, c: char): string {
    if parts == [] then ""
    else if |parts| == 1 then parts[0]
    else parts[0] + [c] + Join(parts[1..], c)
  }

  predicate IsSpace(c: char) {
    || '\U{0009}' <= c <= '\U{000D}' || c == ' ' || c == '\U{00A0}' || c == '\U{1680}'
    || '\U{2000}' <= c <= '\U{200A}' || c == '\U{2028}' || c == '\U{2029}' || c == '\U{202F}'
    || c == '\U{205F}' || c == '\U{3000}' || c == '\U{FEFF}'
  }

  function TrimEnd(s: string): string {
    if s != "" && IsSpace(s[|s| - 1]) then TrimEnd(s[..|s| - 1]) else s
  }

  function TrimStart(s: string): string {
    if s != "" && IsSpace(s[0]) then TrimStart(s[1..]) else s
  }

  function Trim(s: string): string {
    TrimStart(TrimEnd(s))
  }

  /** A name encodeURIComponent leaves as it is. */
  predicate UriSafe(name: string) {
    forall i :: 0 <= i < |name| ==>
      'A' <= name[i] <= 'Z' || 'a' <= name[i] <= 'z' || '0' <= name[i] <= '9' || name[i] in "-_.!~*'()"
  }

  // ---------------------------------------------------------------- utils.ts

  // A carriage return before the line end belongs to the separator.
  function WithoutReturn(line: string): string {
    if line != "" && line[|line| - 1] == '\r' then line[..|line| - 1] else line
  }

  /** body.split(/[\r]?[\n]/) */
  function SplitLines(body: string): seq<string> {
    var lines := Split(body, '\n');
    seq(|lines|, i requires 0 <= i < |lines| => if i < |lines| - 1 then WithoutReturn(lines[i]) else lines[i])
  }

  const PROTO := "__proto__"

  /** What one line assigns; assigning a string to __proto__ of an object has no effect. */
  function ParseLine(line: string): map<string, string> {
    var args := Split(line, ':');
    if |args| > 1 && Trim(args[0]) != PROTO then map[Trim(args[0]) := Trim(args[1])] else map[]
  }

  function ParseLines(lines: seq<string>): map<string, string> {
    if lines == [] then map[] else ParseLines(lines[..|lines| - 1]) + ParseLine(lines[|lines| - 1])
  }

  function Parse(body: string): map<string, string> {
    ParseLines(SplitLines(body))
  }

  function GenerateLine(user: string, hash: string, comment: string): string {
    user + ":" + hash + ":" + comment + "\n"
  }

  function AddUser(body: string, user: string, hash: string, comment: string): Result<string, Error> {
    if !UriSafe(user) then Failure(UnsafeName)
    else
      var line := GenerateLine(user, hash, comment);
      Success(body + (if body != "" && body[|body| - 1] != '\n' then "\n" + line else line))
  }

  // lines.findIndex of the line whose text before the first colon is the user.
  function FindLine(lines: seq<string>, user: string): (i: int)
    ensures -1 <= i < |lines|
    ensures i >= 0 ==> Split(lines[i], ':')[0] == user
    ensures forall j :: 0 <= j < (if i < 0 then |lines| else i) ==> Split(lines[j], ':')[0] != user
  {
    if lines == [] then -1
    else if Split(lines[0], ':')[0] == user then 0
    else
      var i := FindLine(lines[1..], user);
      assert forall j :: 1 <= j < |lines| ==> lines[j] == lines[1..][j - 1];
      if i < 0 then -1 else i + 1
  }

  /** The body with the user's line replaced, or none when there is no such line. */
  function Replaced(body: string, user: string, line: string): Option<string> {
    var lines := Split(body, '\n');
    var i := FindLine(lines, user);
    if i < 0 then None else Some(Join(lines[i := line], '\n'))
  }

  function Removed(body: string, user: string): Option<string> {
    var lines := Split(body, '\n');
    var i := FindLine(lines, user);
    if i < 0 then None else Some(Join(lines[..i] + lines[i + 1..], '\n'))
  }

  // ---------------------------------------------------------------- string lemmas

  lemma PutConcat(x: char, a: seq<string>, b: seq<string>, c: char)
    requires a != []
    ensures Put(x, a + b, c) == Put(x, a, c) + b
  {
    if x == c {
      assert [""] + (a + b) == ([""] + a) + b;
    } else {
      assert (a + b)[1..] == a[1..] + b;
    }
  }

  lemma {:induction false} SplitConcat(a: string, b: string, c: char)
    ensures Split(a + [c] + b, c) == Split(a, c) + Split(b, c)
  {
    var all := a + [c] + b;
    if a == "" {
      assert all[1..] == b && all[0] == c;
    } else {
      SplitConcat(a[1..], b, c);
      assert all[1..] == a[1..] + [c] + b && all[0] == a[0];
      PutConcat(a[0], Split(a[1..], c), Split(b, c), c);
    }
  }

  lemma {:induction false} SplitNone(s: string, c: char)
    requires c !in s
    ensures Split(s, c) == [s]
  {
    if s != "" {
      SplitNone(s[1..], c);
      assert [s[0]] + s[1..] == s;
    }
  }

  lemma {:induction false} PartsAreFree(s: string, c: char)
    ensures forall i :: 0 <= i < |Split(s, c)| ==> c !in Split(s, c)[i]
  {
    if s != "" {
      PartsAreFree(s[1..], c);
    }
  }

  // The parts of all lines together.
  function Flat(lines: seq<string>, c: char): seq<string> {
    if lines == [] then [] else Split(lines[0], c) + Flat(lines[1..], c)
  }

  lemma {:induction false} SplitJoin(lines: seq<string>, c: char)
    requires lines != []
    ensures Split(Join(lines, c), c) == Flat(lines, c)
  {
    if |lines| > 1 {
      SplitJoin(lines[1..], c);
      SplitConcat(lines[0], Join(lines[1..], c), c);
    } else {
      assert Flat(lines[1..], c) == [];
    }
  }

  lemma {:induction false} FlatConcat(a: seq<string>, b: seq<string>, c: char)
    ensures Flat(a + b, c) == Flat(a, c) + Flat(b, c)
  {
    if a == [] {
      assert a + b == b;
    } else {
      assert (a + b)[1..] == a[1..] + b;
      FlatConcat(a[1..], b, c);
    }
  }

  lemma {:induction false} FlatFree(lines: seq<string>, c: char)
    requires forall i :: 0 <= i < |lines| ==> c !in lines[i]
    ensures Flat(lines, c) == lines
  {
    if lines != [] {
      SplitNone(lines[0], c);
      FlatFree(lines[1..], c);
      assert [lines[0]] + lines[1..] == lines;
    }
  }

  // Every part but the last, and the last one with a character added.
  function WithLast(parts: seq<string>, x: char): seq<string>
    requires parts != []
  {
    parts[..|parts| - 1] + [parts[|parts| - 1] + [x]]
  }

  lemma PutWithLast(y: char, parts: seq<string>, x: char, c: char)
    requires parts != []
    ensures Put(y, WithLast(parts, x), c) == WithLast(Put(y, parts, c), x)
  {
    if y != c && |parts| == 1 {
      assert [y] + (parts[0] + [x]) == ([y] + parts[0]) + [x];
    }
  }

  // Splitting with one more character at the end extends the last part.
  lemma {:induction false} SplitAppend(s: string, x: char, c: char)
    requires x != c
    ensures Split(s + [x], c) == WithLast(Split(s, c), x)
  {
    if s == "" {
      SplitNone([x], c);
      assert s + [x] == [x];
    } else {
      SplitAppend(s[1..], x, c);
      assert (s + [x])[1..] == s[1..] + [x];
      PutWithLast(s[0], Split(s[1..], c), x, c);
    }
  }

  lemma {:induction false} TrimSpace(s: string, x: char)
    requires IsSpace(x)
    ensures Trim(s + [x]) == Trim(s)
  {
    assert (s + [x])[..|s|] == s;
  }

  // ---------------------------------------------------------------- parsing line by line

  lemma {:induction false} ReturnIsIgnored(line: string)
    ensures ParseLine(WithoutReturn(line)) == ParseLine(line)
  {
    if line != "" && line[|line| - 1] == '\r' {
      var s := line[..|line| - 1];
      assert line == s + ['\r'];
      SplitAppend(s, '\r', ':');
      var parts := Split(s, ':');
      TrimSpace(parts[|parts| - 1], '\r');
    }
  }

  lemma {:induction false} ParseLinesAgree(a: seq<string>, b: seq<string>)
    requires |a| == |b| && forall i :: 0 <= i < |a| ==> ParseLine(a[i]) == ParseLine(b[i])
    ensures ParseLines(a) == ParseLines(b)
  {
    if a != [] {
      ParseLinesAgree(a[..|a| - 1], b[..|b| - 1]);
    }
  }

  lemma {:induction false} ParseIsByLine(body: string)
    ensures Parse(body) == ParseLines(Split(body, '\n'))
  {
    var lines := Split(body, '\n');
    forall i | 0 <= i < |lines| ensures ParseLine(SplitLines(body)[i]) == ParseLine(lines[i]) {
      ReturnIsIgnored(lines[i]);
    }
    ParseLinesAgree(SplitLines(body), lines);
  }

  lemma UnionIsAssociative(a: map<string, string>, b: map<string, string>, c: map<string, string>)
    ensures a + (b + c) == (a + b) + c
  {
  }

  lemma {:induction false} ParseLinesConcat(a: seq<string>, b: seq<string>)
    ensures ParseLines(a + b) == ParseLines(a) + ParseLines(b)
  {
    if b == [] {
      assert a + b == a;
    } else {
      var whole, last := a + b, b[|b| - 1];
      assert whole[..|whole| - 1] == a + b[..|b| - 1] && whole[|whole| - 1] == last;
      ParseLinesConcat(a, b[..|b| - 1]);
      UnionIsAssociative(ParseLines(a), ParseLines(b[..|b| - 1]), ParseLine(last));
    }
  }

  /** A hash that is not empty and has no colons, line ends or surrounding blanks. */
  predicate CleanHash(hash: string) {
    hash != "" && ':' !in hash && '\n' !in hash && Trim(hash) == hash
  }

  predicate CleanName(user: string) {
    UriSafe(user) && user != "" && user != PROTO
  }

  lemma {:induction false} SafeIsTrimmed(user: string)
    requires UriSafe(user)
    ensures ':' !in user && '\n' !in user && Trim(user) == user
  {
    assert forall i :: 0 <= i < |user| ==> !IsSpace(user[i]);
  }

  // The line generated for a user, without its line end.
  function RecordLine(user: string, hash: string, comment: string): string {
    user + ":" + hash + ":" + comment
  }

  lemma SplitFields(first: string, second: string, rest: string, c: char)
    requires c !in first && c !in second
    ensures Split(first + [c] + (second + [c] + rest), c) == [first, second] + Split(rest, c)
  {
    SplitConcat(first, second + [c] + rest, c);
    SplitConcat(second, rest, c);
    SplitNone(first, c);
    SplitNone(second, c);
    assert [first] + ([second] + Split(rest, c)) == [first, second] + Split(rest, c);
  }

  lemma RecordFields(user: string, hash: string, comment: string)
    requires ':' !in user && ':' !in hash
    ensures Split(RecordLine(user, hash, comment), ':') == [user, hash] + Split(comment, ':')
  {
    SplitFields(user, hash, comment, ':');
    assert RecordLine(user, hash, comment) == user + [':'] + (hash + [':'] + comment);
  }

  lemma GeneratedLines(user: string, hash: string, comment: string)
    requires '\n' !in user && '\n' !in hash && '\n' !in comment
    ensures Split(GenerateLine(user, hash, comment), '\n') == [RecordLine(user, hash, comment), ""]
  {
    var line := RecordLine(user, hash, comment);
    SplitConcat(line, "", '\n');
    assert GenerateLine(user, hash, comment) == line + ['\n'] + "";
    SplitNone(line, '\n');
  }

  lemma RecordParses(user: string, hash: string, comment: string)
    requires UriSafe(user) && user != PROTO && CleanHash(hash) && '\n' !in comment
    ensures var line := RecordLine(user, hash, comment);
            && ParseLine(line) == map[user := hash] && line != ""
            && |Split(line, ':')| > 1 && Split(line, ':')[0] == user && Split(line, ':')[1] == hash
            && Split(GenerateLine(user, hash, comment), '\n') == [line, ""]
  {
    SafeIsTrimmed(user);
    RecordFields(user, hash, comment);
    GeneratedLines(user, hash, comment);
  }

  lemma ParseOne(line: string)
    ensures ParseLines([line]) == ParseLine(line)
  {
    var lines := [line];
    assert lines[..|lines| - 1] == [] && lines[|lines| - 1] == line;
    assert ParseLines(lines) == map[] + ParseLine(line);
  }

  lemma ParseBlankAfter(line: string)
    ensures ParseLines([line, ""]) == ParseLine(line)
  {
    ParseOne(line);
    ParseOne("");
    assert [line, ""] == [line] + [""];
    ParseLinesConcat([line], [""]);
    assert ParseLine(line) + map[] == ParseLine(line);
  }

  // The text generated for a user parses as its record and a blank line.
  lemma GeneratedParses(user: string, hash: string, comment: string)
    requires UriSafe(user) && user != PROTO && CleanHash(hash) && '\n' !in comment
    ensures Parse(GenerateLine(user, hash, comment)) == map[user := hash]
  {
    ParseIsByLine(GenerateLine(user, hash, comment));
    RecordParses(user, hash, comment);
    ParseBlankAfter(RecordLine(user, hash, comment));
  }

  // A line end and more text after it.
  lemma {:induction false} ParseAfterLineEnd(body: string, more: string)
    ensures Parse(body + "\n" + more) == Parse(body) + Parse(more)
  {
    ParseIsByLine(body);
    ParseIsByLine(more);
    ParseIsByLine(body + "\n" + more);
    SplitConcat(body, more, '\n');
    ParseLinesConcat(Split(body, '\n'), Split(more, '\n'));
  }

  lemma {:induction false} ParseOfNothing()
    ensures Parse("") == map[]
  {
    ParseIsByLine("");
    assert [""][..0] == [];
  }

  lemma SingletonUnion(m: map<string, string>, user: string, hash: string)
    ensures m + map[user := hash] == m[user := hash]
  {
  }

  // ---------------------------------------------------------------- edits of any body

  lemma ParseAppended(body: string, line: string)
    ensures Parse(if body != "" && body[|body| - 1] != '\n' then body + "\n" + line else body + line)
         == Parse(body) + Parse(line)
  {
    if body == "" {
      ParseOfNothing();
      assert "" + line == line;
      assert map[] + Parse(line) == Parse(line);
    } else if body[|body| - 1] != '\n' {
      ParseAfterLineEnd(body, line);
    } else {
      var before := body[..|body| - 1];
      assert body == before + "\n" + "";
      assert body + line == before + "\n" + line;
      ParseOfNothing();
      ParseAfterLineEnd(before, "");
      ParseAfterLineEnd(before, line);
      assert Parse(before) + map[] == Parse(before);
    }
  }

  /** Adding a line assigns the hash and nothing else, whatever the body holds. */
  lemma AddAssigns(body: string, user: string, hash: string, comment: string)
    requires UriSafe(user) && user != PROTO && CleanHash(hash) && '\n' !in comment
    ensures var r := AddUser(body, user, hash, comment);
            r.Success? && Parse(r.value) == Parse(body)[user := hash]
  {
    var line := GenerateLine(user, hash, comment);
    ParseAppended(body, line);
    assert body + ("\n" + line) == body + "\n" + line;
    GeneratedParses(user, hash, comment);
    SingletonUnion(Parse(body), user, hash);
  }

  lemma ParseThree(a: seq<string>, line: string, b: seq<string>)
    ensures ParseLines(a + [line] + b) == ParseLines(a) + ParseLine(line) + ParseLines(b)
  {
    ParseLinesConcat(a + [line], b);
    ParseLinesConcat(a, [line]);
    ParseOne(line);
  }

  lemma TakenApart<T>(s: seq<T>, i: nat)
    requires i < |s|
    ensures s[..i] + [s[i]] + s[i + 1..] == s
  {
  }

  lemma ParseAround(lines: seq<string>, i: nat)
    requires i < |lines|
    ensures ParseLines(lines) == ParseLines(lines[..i]) + ParseLine(lines[i]) + ParseLines(lines[i + 1..])
  {
    TakenApart(lines, i);
    ParseThree(lines[..i], lines[i], lines[i + 1..]);
  }

  lemma LineAssignsItsName(line: string, user: string)
    requires Split(line, ':')[0] == user && UriSafe(user)
    ensures ParseLine(line).Keys <= {user}
  {
    SafeIsTrimmed(user);
  }

  // The lines before, at and after the user's line.
  lemma FoundLine(lines: seq<string>, user: string)
    requires FindLine(lines, user) >= 0 && UriSafe(user)
    ensures var i := FindLine(lines, user);
            && ParseLines(lines) == ParseLines(lines[..i]) + ParseLine(lines[i]) + ParseLines(lines[i + 1..])
            && ParseLine(lines[i]).Keys <= {user}
  {
    var i := FindLine(lines, user);
    ParseAround(lines, i);
    LineAssignsItsName(lines[i], user);
  }

  // The lines after joining some of the lines of a text with the text generated for a user between them.
  lemma {:induction false} JoinedAround(a: seq<string>, user: string, hash: string, comment: string, b: seq<string>)
    requires UriSafe(user) && user != PROTO && CleanHash(hash) && '\n' !in comment
    requires forall i :: 0 <= i < |a| ==> '\n' !in a[i]
    requires forall i :: 0 <= i < |b| ==> '\n' !in b[i]
    ensures var text := Join(a + [GenerateLine(user, hash, comment)] + b, '\n');
            && Split(text, '\n') == a + [RecordLine(user, hash, comment), ""] + b
            && Parse(text) == ParseLines(a) + map[user := hash] + ParseLines(b)
  {
    var generated := GenerateLine(user, hash, comment);
    var added := [RecordLine(user, hash, comment), ""];
    RecordParses(user, hash, comment);
    SplitJoin(a + [generated] + b, '\n');
    FlatConcat(a + [generated], b, '\n');
    FlatConcat(a, [generated], '\n');
    FlatFree(a, '\n');
    FlatFree(b, '\n');
    assert Flat([generated], '\n') == added by {
      assert [generated][1..] == [];
    }
    ParseIsByLine(Join(a + [generated] + b, '\n'));
    ParseLinesConcat(a + added, b);
    ParseLinesConcat(a, added);
    ParseBlankAfter(RecordLine(user, hash, comment));
  }

  lemma {:induction false} JoinedWithout(a: seq<string>, b: seq<string>)
    requires forall i :: 0 <= i < |a| ==> '\n' !in a[i]
    requires forall i :: 0 <= i < |b| ==> '\n' !in b[i]
    ensures Split(Join(a + b, '\n'), '\n') == if a + b == [] then [""] else a + b
    ensures Parse(Join(a + b, '\n')) == ParseLines(a) + ParseLines(b)
  {
    ParseLinesConcat(a, b);
    ParseIsByLine(Join(a + b, '\n'));
    if a + b == [] {
      ParseOne("");
    } else {
      SplitJoin(a + b, '\n');
      FlatFree(a + b, '\n');
    }
  }

  lemma AssignInTheMiddle(a: map<string, string>, was: map<string, string>, b: map<string, string>, user: string,
      hash: string)
    requires was.Keys <= {user}
    ensures a + map[user := hash] + b == (a + was + b)[user := hash] <==> (user in b ==> b[user] == hash)
  {
    var after, wanted := a + map[user := hash] + b, (a + was + b)[user := hash];
    assert wanted[user] == hash;
    if user in b {
      assert after[user] == b[user];
    }
  }

  lemma DropFromTheMiddle(a: map<string, string>, was: map<string, string>, b: map<string, string>, user: string)
    requires was.Keys <= {user}
    ensures a + b == (a + was + b) - {user} <==> user !in a && user !in b
  {
    var wanted := (a + was + b) - {user};
    assert user !in wanted;
    if user in a || user in b {
      assert user in a + b;
    }
  }

  ghost predicate Free(lines: seq<string>) {
    forall i :: 0 <= i < |lines| ==> '\n' !in lines[i]
  }

  lemma LinesAreFree(body: string)
    ensures Free(Split(body, '\n'))
  {
    PartsAreFree(body, '\n');
  }

  lemma JoinedAt(lines: seq<string>, i: nat, user: string, hash: string, comment: string)
    requires UriSafe(user) && user != PROTO && CleanHash(hash) && '\n' !in comment
    requires Free(lines) && i < |lines|
    ensures var text := Join(lines[i := GenerateLine(user, hash, comment)], '\n');
            && Split(text, '\n') == lines[..i] + [RecordLine(user, hash, comment), ""] + lines[i + 1..]
            && Parse(text) == ParseLines(lines[..i]) + map[user := hash] + ParseLines(lines[i + 1..])
  {
    var generated := GenerateLine(user, hash, comment);
    assert lines[i := generated] == lines[..i] + [generated] + lines[i + 1..];
    JoinedAround(lines[..i], user, hash, comment, lines[i + 1..]);
  }

  // The lines after replacing the user's line.
  lemma LinesAfterReplace(body: string, user: string, hash: string, comment: string)
    requires UriSafe(user) && user != PROTO && CleanHash(hash) && '\n' !in comment
    requires FindLine(Split(body, '\n'), user) >= 0
    ensures var lines := Split(body, '\n');
            var i, r := FindLine(lines, user), Replaced(body, user, GenerateLine(user, hash, comment));
            && r.Some?
            && Split(r.value, '\n') == lines[..i] + [RecordLine(user, hash, comment), ""] + lines[i + 1..]
            && Parse(r.value) == ParseLines(lines[..i]) + map[user := hash] + ParseLines(lines[i + 1..])
  {
    var lines := Split(body, '\n');
    LinesAreFree(body);
    JoinedAt(lines, FindLine(lines, user), user, hash, comment);
  }

  /**
   * Setting a password assigns the hash and nothing else exactly when no later line names the
   * user with another hash.
   */
  lemma {:induction false} SetAssigns(body: string, user: string, hash: string, comment: string)
    requires UriSafe(user) && user != PROTO && CleanHash(hash) && '\n' !in comment
    requires FindLine(Split(body, '\n'), user) >= 0
    ensures var lines := Split(body, '\n');
            var after := Replaced(body, user, GenerateLine(user, hash, comment));
            var later := ParseLines(lines[FindLine(lines, user) + 1..]);
            && after.Some?
            && (Parse(after.value) == Parse(body)[user := hash] <==> (user in later ==> later[user] == hash))
  {
    var lines := Split(body, '\n');
    var i := FindLine(lines, user);
    FoundLine(lines, user);
    ParseIsByLine(body);
    LinesAfterReplace(body, user, hash, comment);
    AssignInTheMiddle(ParseLines(lines[..i]), ParseLine(lines[i]), ParseLines(lines[i + 1..]), user, hash);
  }

  // The lines after removing the user's line; removing the only line leaves a blank one.
  lemma LinesAfterRemove(body: string, user: string)
    requires FindLine(Split(body, '\n'), user) >= 0
    ensures var lines := Split(body, '\n');
            var i, r := FindLine(lines, user), Removed(body, user);
            var kept := lines[..i] + lines[i + 1..];
            && r.Some?
            && Split(r.value, '\n') == (if kept == [] then [""] else kept)
            && Parse(r.value) == ParseLines(lines[..i]) + ParseLines(lines[i + 1..])
  {
    var lines := Split(body, '\n');
    var i := FindLine(lines, user);
    LinesAreFree(body);
    JoinedWithout(lines[..i], lines[i + 1..]);
  }

  lemma RemovedParses(body: string, user: string)
    requires FindLine(Split(body, '\n'), user) >= 0
    ensures var lines := Split(body, '\n');
            var i, r := FindLine(lines, user), Removed(body, user);
            r.Some? && Parse(r.value) == ParseLines(lines[..i]) + ParseLines(lines[i + 1..])
  {
    LinesAfterRemove(body, user);
  }

  lemma FoundParses(body: string, user: string)
    requires FindLine(Split(body, '\n'), user) >= 0 && UriSafe(user)
    ensures var lines := Split(body, '\n');
            var i := FindLine(lines, user);
            && Parse(body) == ParseLines(lines[..i]) + ParseLine(lines[i]) + ParseLines(lines[i + 1..])
            && ParseLine(lines[i]).Keys <= {user}
  {
    ParseIsByLine(body);
    FoundLine(Split(body, '\n'), user);
  }

  /** Removing deletes the user and nothing else exactly when no other line names the user. */
  lemma {:induction false} RemoveDeletes(body: string, user: string)
    requires UriSafe(user) && FindLine(Split(body, '\n'), user) >= 0
    ensures var lines := Split(body, '\n');
            var i, after := FindLine(lines, user), Removed(body, user);
            && after.Some?
            && (Parse(after.value) == Parse(body) - {user} <==>
                user !in ParseLines(lines[..i]) && user !in ParseLines(lines[i + 1..]))
  {
    var lines := Split(body, '\n');
    var i := FindLine(lines, user);
    FoundParses(body, user);
    RemovedParses(body, user);
    DropFromTheMiddle(ParseLines(lines[..i]), ParseLine(lines[i]), ParseLines(lines[i + 1..]), user);
  }

  lemma TwoFields(user: string, hash: string)
    requires CleanName(user) && CleanHash(hash)
    ensures Split(user + ":" + hash, ':') == [user, hash]
    ensures ParseLine(user + ":" + hash) == map[user := hash]
  {
    SafeIsTrimmed(user);
    SplitConcat(user, hash, ':');
    SplitNone(user, ':');
    SplitNone(hash, ':');
  }

  /** One line per user is needed: removing a name that stands on two lines brings back the hash of the other line. */
  lemma RemoveLeavesTheOtherLine(user: string, first: string, second: string)
    requires CleanName(user) && CleanHash(first) && CleanHash(second)
    ensures var one, other := user + ":" + first, user + ":" + second;
            Removed(one + "\n" + other, user) == Some(other) && Parse(other) == map[user := second]
  {
    var one, other := user + ":" + first, user + ":" + second;
    TwoFields(user, first);
    TwoFields(user, second);
    SafeIsTrimmed(user);
    SplitNone(one, '\n');
    SplitNone(other, '\n');
    SplitConcat(one, other, '\n');
    ParseIsByLine(other);
    ParseOne(other);
    var lines := [one, other];
    assert lines[0] == one && FindLine(lines, user) == 0;
    assert lines[..0] + lines[1..] == [other];
  }

  // ---------------------------------------------------------------- runs from the empty file

  datatype Edit =
    | Add(user: string, hash: string, comment: string)
    | Set(user: string, hash: string, comment: string)
    | Change(user: string, password: string, hash: string, comment: string)
    | Remove(user: string)

  function OrMissing(body: Option<string>): Result<string, Error> {
    match body
    case None => Failure(NoSuchUser)
    case Some(after) => Success(after)
  }

  /** One edit of the file. The plugin refuses to add a user for whom parsing the file finds a hash. */
  function Edited(body: string, e: Edit, verify: (string, string) -> bool): Result<string, Error> {
    match e
    case Add(user, hash, comment) =>
      if user in Parse(body) && Parse(body)[user] != "" then Failure(UserExists) else AddUser(body, user, hash, comment)
    case Set(user, hash, comment) =>
      OrMissing(Replaced(body, user, GenerateLine(user, hash, comment)))
    case Change(user, password, hash, comment) =>
      var lines := Split(body, '\n');
      var i := FindLine(lines, user);
      if i < 0 then Failure(NoSuchUser)
      else
        var args := Split(lines[i], ':');
        if |args| < 2 || !verify(password, args[1]) then Failure(WrongPassword)
        else OrMissing(Replaced(body, user, GenerateLine(user, hash, comment)))
    case Remove(user) =>
      OrMissing(Removed(body, user))
  }

  /** The same edit of a map of hashes. */
  function EditedMap(users: map<string, string>, e: Edit, verify: (string, string) -> bool)
    : Result<map<string, string>, Error>
  {
    match e
    case Add(user, hash, _) =>
      if user in users then Failure(UserExists)
      else if !UriSafe(user) then Failure(UnsafeName)
      else Success(users[user := hash])
    case Set(user, hash, _) =>
      if user !in users then Failure(NoSuchUser) else Success(users[user := hash])
    case Change(user, password, hash, _) =>
      if user !in users then Failure(NoSuchUser)
      else if !verify(password, users[user]) then Failure(WrongPassword)
      else Success(users[user := hash])
    case Remove(user) =>
      if user !in users then Failure(NoSuchUser) else Success(users - {user})
  }

  function EditAll(edits: seq<Edit>, verify: (string, string) -> bool): (body: string) {
    if edits == [] then ""
    else
      var before := EditAll(edits[..|edits| - 1], verify);
      match Edited(before, edits[|edits| - 1], verify)
      case Success(after) => after
      case Failure(_) => before
  }

  function EditAllMap(edits: seq<Edit>, verify: (string, string) -> bool): map<string, string> {
    if edits == [] then map[]
    else
      var before := EditAllMap(edits[..|edits| - 1], verify);
      match EditedMap(before, edits[|edits| - 1], verify)
      case Success(after) => after
      case Failure(_) => before
  }

  /** Hashes without colons or blanks around them, a comment on one line, and a name that is not empty or __proto__. */
  predicate CleanEdit(e: Edit) {
    && e.user != "" && e.user != PROTO
    && (!e.Remove? ==> CleanHash(e.hash) && '\n' !in e.comment)
  }

  ghost predicate CleanEdits(edits: seq<Edit>) {
    forall i :: 0 <= i < |edits| ==> CleanEdit(edits[i])
  }

  predicate IsRecord(line: string) {
    var args := Split(line, ':');
    |args| > 1 && CleanName(args[0]) && CleanHash(args[1])
  }

  ghost predicate Tidy(lines: seq<string>) {
    forall i :: 0 <= i < |lines| ==> lines[i] == "" || IsRecord(lines[i])
  }

  // The names of the lines that are not blank.
  function Names(lines: seq<string>): seq<string> {
    if lines == [] then []
    else
      var last := lines[|lines| - 1];
      Names(lines[..|lines| - 1]) + if last == "" then [] else [Split(last, ':')[0]]
  }

  /** Every line is blank or a record, and no two records have one name. */
  ghost predicate Good(body: string) {
    Tidy(Split(body, '\n')) && Distinct(Names(Split(body, '\n')))
  }

  lemma {:induction false} NamesConcat(a: seq<string>, b: seq<string>)
    ensures Names(a + b) == Names(a) + Names(b)
  {
    if b == [] {
      assert a + b == a;
    } else {
      var whole := a + b;
      assert whole[..|whole| - 1] == a + b[..|b| - 1] && whole[|whole| - 1] == b[|b| - 1];
      NamesConcat(a, b[..|b| - 1]);
    }
  }

  lemma NamesOne(line: string)
    ensures Names([line]) == if line == "" then [] else [Split(line, ':')[0]]
  {
    assert [line][..0] == [];
  }

  lemma RecordMeans(line: string)
    requires IsRecord(line)
    ensures ParseLine(line) == map[Split(line, ':')[0] := Split(line, ':')[1]]
  {
    SafeIsTrimmed(Split(line, ':')[0]);
  }

  lemma {:induction false} KeysAreNames(lines: seq<string>, user: string)
    requires Tidy(lines)
    ensures user in ParseLines(lines) <==> user in Names(lines)
  {
    if lines != [] {
      var last := lines[|lines| - 1];
      KeysAreNames(lines[..|lines| - 1], user);
      if last != "" {
        RecordMeans(last);
      }
    }
  }

  lemma {:induction false} NameOfLine(lines: seq<string>, i: nat)
    requires i < |lines| && lines[i] != ""
    ensures Split(lines[i], ':')[0] in Names(lines)
  {
    if i < |lines| - 1 {
      NameOfLine(lines[..|lines| - 1], i);
    }
  }

  lemma {:induction false} LineOfName(lines: seq<string>, user: string) returns (i: nat)
    requires user in Names(lines)
    ensures i < |lines| && lines[i] != "" && Split(lines[i], ':')[0] == user
  {
    i := |lines| - 1;
    if lines[i] == "" || Split(lines[i], ':')[0] != user {
      i := LineOfName(lines[..i], user);
    }
  }

  lemma FoundIffNamed(lines: seq<string>, user: string)
    requires Tidy(lines) && user != ""
    ensures FindLine(lines, user) >= 0 <==> user in Names(lines)
    ensures FindLine(lines, user) >= 0 ==> IsRecord(lines[FindLine(lines, user)])
  {
    var i := FindLine(lines, user);
    if i >= 0 {
      NameOfLine(lines, i);
    } else if user in Names(lines) {
      var j := LineOfName(lines, user);
      assert false;
    }
  }

  lemma {:induction false} FoundInFile(body: string, user: string)
    requires Good(body) && user != ""
    ensures FindLine(Split(body, '\n'), user) >= 0 <==> user in Parse(body)
    ensures user in Parse(body) ==> IsRecord(Split(body, '\n')[FindLine(Split(body, '\n'), user)]) && UriSafe(user)
  {
    ParseIsByLine(body);
    FoundIffNamed(Split(body, '\n'), user);
    KeysAreNames(Split(body, '\n'), user);
  }

  lemma DistinctApart(a: seq<string>, user: string, b: seq<string>)
    requires Distinct(a + [user] + b)
    ensures user !in a && user !in b && Distinct(a + b)
  {
    var names := a + [user] + b;
    assert names[|a|] == user;
    forall i | 0 <= i < |a| ensures a[i] != user {
      assert names[i] == a[i];
    }
    forall i | 0 <= i < |b| ensures b[i] != user {
      assert names[|a| + 1 + i] == b[i];
    }
    forall i, j | 0 <= i < j < |a + b| ensures (a + b)[i] != (a + b)[j] {
      var i', j' := if i < |a| then i else i + 1, if j < |a| then j else j + 1;
      assert names[i'] == (a + b)[i] && names[j'] == (a + b)[j];
    }
  }

  lemma {:induction false} NamesAround(lines: seq<string>, i: nat)
    requires i < |lines| && lines[i] != ""
    ensures Names(lines) == Names(lines[..i]) + [Split(lines[i], ':')[0]] + Names(lines[i + 1..])
  {
    assert lines == lines[..i] + [lines[i]] + lines[i + 1..];
    NamesConcat(lines[..i] + [lines[i]], lines[i + 1..]);
    NamesConcat(lines[..i], [lines[i]]);
    NamesOne(lines[i]);
  }

  // A user's line is the only one with the name.
  lemma {:induction false} FoundOnce(body: string, user: string)
    requires Good(body) && user in Parse(body) && user != ""
    ensures var lines := Split(body, '\n');
            var i := FindLine(lines, user);
            && i >= 0 && IsRecord(lines[i])
            && Names(lines) == Names(lines[..i]) + [user] + Names(lines[i + 1..])
            && Tidy(lines[..i]) && Tidy(lines[i + 1..])
            && user !in ParseLines(lines[..i]) && user !in ParseLines(lines[i + 1..])
  {
    var lines := Split(body, '\n');
    FoundInFile(body, user);
    var i := FindLine(lines, user);
    NamesAround(lines, i);
    DistinctApart(Names(lines[..i]), user, Names(lines[i + 1..]));
    KeysAreNames(lines[..i], user);
    KeysAreNames(lines[i + 1..], user);
  }

  lemma {:induction false} HashInFile(body: string, user: string)
    requires Good(body) && user in Parse(body) && user != ""
    ensures var lines := Split(body, '\n');
            var i := FindLine(lines, user);
            i >= 0 && |Split(lines[i], ':')| > 1 && Split(lines[i], ':')[1] == Parse(body)[user] != ""
  {
    var lines := Split(body, '\n');
    var i := FindLine(lines, user);
    FoundOnce(body, user);
    RecordMeans(lines[i]);
    FoundLine(lines, user);
    ParseIsByLine(body);
  }

  // ---------------------------------------------------------------- each edit keeps the file good

  lemma RecordLineIsRecord(user: string, hash: string, comment: string)
    requires CleanName(user) && CleanHash(hash) && '\n' !in comment
    ensures IsRecord(RecordLine(user, hash, comment)) && RecordLine(user, hash, comment) != ""
  {
    RecordParses(user, hash, comment);
  }

  lemma NamesOfAdded(user: string, hash: string, comment: string)
    requires CleanName(user) && CleanHash(hash) && '\n' !in comment
    ensures Names([RecordLine(user, hash, comment), ""]) == [user]
  {
    var line := RecordLine(user, hash, comment);
    RecordLineIsRecord(user, hash, comment);
    RecordParses(user, hash, comment);
    assert [line, ""] == [line] + [""];
    NamesConcat([line], [""]);
    NamesOne(line);
    NamesOne("");
  }

  // A generated line and a blank one between tidy lines add one name.
  lemma {:induction false} GoodAround(a: seq<string>, user: string, hash: string, comment: string, b: seq<string>)
    requires Tidy(a) && Tidy(b) && CleanName(user) && CleanHash(hash) && '\n' !in comment
    ensures var lines := a + [RecordLine(user, hash, comment), ""] + b;
            Tidy(lines) && Names(lines) == Names(a) + [user] + Names(b)
  {
    var added := [RecordLine(user, hash, comment), ""];
    assert Names(a + added + b) == Names(a) + [user] + Names(b) by {
      NamesConcat(a + added, b);
      NamesConcat(a, added);
      NamesOfAdded(user, hash, comment);
    }
    RecordLineIsRecord(user, hash, comment);
    assert Tidy(added);
    TidyConcat(a, added);
    TidyConcat(a + added, b);
  }

  lemma TidyConcat(a: seq<string>, b: seq<string>)
    requires Tidy(a) && Tidy(b)
    ensures Tidy(a + b)
  {
  }

  lemma {:induction false} GoodAfterReplace(body: string, user: string, hash: string, comment: string)
    requires Good(body) && user in Parse(body) && user != "" && user != PROTO && CleanHash(hash) && '\n' !in comment
    ensures var r := Replaced(body, user, GenerateLine(user, hash, comment));
            r.Some? && Good(r.value) && Parse(r.value) == Parse(body)[user := hash]
  {
    FoundInFile(body, user);
    FoundOnce(body, user);
    LinesAfterReplace(body, user, hash, comment);
    var lines := Split(body, '\n');
    var i := FindLine(lines, user);
    assert Good(Replaced(body, user, GenerateLine(user, hash, comment)).value) by {
      GoodAround(lines[..i], user, hash, comment, lines[i + 1..]);
    }
    SetAssigns(body, user, hash, comment);
  }

  lemma GoodWithout(a: seq<string>, user: string, b: seq<string>)
    requires Tidy(a) && Tidy(b) && Distinct(Names(a) + [user] + Names(b))
    ensures var lines := if a + b == [] then [""] else a + b;
            Tidy(lines) && Distinct(Names(lines))
  {
    TidyConcat(a, b);
    NamesConcat(a, b);
    DistinctApart(Names(a), user, Names(b));
    NamesOne("");
  }

  lemma {:induction false} GoodAfterRemove(body: string, user: string)
    requires Good(body) && user in Parse(body) && user != ""
    ensures var r := Removed(body, user);
            r.Some? && Good(r.value) && Parse(r.value) == Parse(body) - {user}
  {
    FoundInFile(body, user);
    FoundOnce(body, user);
    RemoveDeletes(body, user);
    LinesAfterRemove(body, user);
    var lines := Split(body, '\n');
    var i := FindLine(lines, user);
    GoodWithout(lines[..i], user, lines[i + 1..]);
  }

  // A blank line at the end adds no name.
  lemma NamesWithoutBlankEnd(lines: seq<string>)
    requires lines != [] && lines[|lines| - 1] == ""
    ensures Names(lines[..|lines| - 1]) == Names(lines)
  {
  }

  // Tidy lines with a generated line and a blank one behind them.
  lemma GoodAtEnd(lines: seq<string>, user: string, hash: string, comment: string)
    requires Tidy(lines) && Distinct(Names(lines)) && user !in Names(lines)
    requires CleanName(user) && CleanHash(hash) && '\n' !in comment
    ensures var after := lines + [RecordLine(user, hash, comment), ""];
            Tidy(after) && Distinct(Names(after))
  {
    var added := [RecordLine(user, hash, comment), ""];
    GoodAround(lines, user, hash, comment, []);
    assert lines + added + [] == lines + added;
    assert Names(lines) + [user] + Names([]) == Names(lines) + [user];
  }

  lemma {:induction false} GoodAfterAdd(body: string, user: string, hash: string, comment: string)
    requires Good(body) && user !in Parse(body) && CleanName(user) && CleanHash(hash) && '\n' !in comment
    ensures var r := AddUser(body, user, hash, comment);
            r.Success? && Good(r.value) && Parse(r.value) == Parse(body)[user := hash]
  {
    var lines := Split(body, '\n');
    AddAssigns(body, user, hash, comment);
    ParseIsByLine(body);
    KeysAreNames(lines, user);
    LinesAfterAdd(body, user, hash, comment);
    if EndsLine(body) {
      NamesWithoutBlankEnd(lines);
      GoodAtEnd(lines[..|lines| - 1], user, hash, comment);
    } else {
      GoodAtEnd(lines, user, hash, comment);
    }
  }

  lemma SplitAfterLineEnd(body: string, more: string)
    ensures Split(body + "\n" + more, '\n') == Split(body, '\n') + Split(more, '\n')
  {
    SplitConcat(body, more, '\n');
  }

  predicate EndsLine(body: string) {
    body == "" || body[|body| - 1] == '\n'
  }

  // The last line of a body that ends its line is blank, and text appended to it takes the place of that line.
  lemma {:induction false} SplitAfterEndedLine(body: string, more: string)
    requires EndsLine(body)
    ensures var lines := Split(body, '\n');
            lines[|lines| - 1] == "" && Split(body + more, '\n') == lines[..|lines| - 1] + Split(more, '\n')
  {
    if body == "" {
      assert body + more == more;
    } else {
      var before := body[..|body| - 1];
      assert body == before + "\n" + "" && body + more == before + "\n" + more;
      SplitAfterLineEnd(before, "");
      SplitAfterLineEnd(before, more);
    }
  }

  // The lines of a body after adding a user: a blank line at the end gives way to the new record.
  lemma LinesAfterAdd(body: string, user: string, hash: string, comment: string)
    requires UriSafe(user) && user != PROTO && CleanHash(hash) && '\n' !in comment
    ensures var lines, r := Split(body, '\n'), AddUser(body, user, hash, comment);
            && (EndsLine(body) ==> lines[|lines| - 1] == "")
            && r.Success?
            && Split(r.value, '\n') ==
               (if EndsLine(body) then lines[..|lines| - 1] else lines) + [RecordLine(user, hash, comment), ""]
  {
    var generated := GenerateLine(user, hash, comment);
    RecordParses(user, hash, comment);
    if EndsLine(body) {
      SplitAfterEndedLine(body, generated);
    } else {
      assert body + ("\n" + generated) == body + "\n" + generated;
      SplitAfterLineEnd(body, generated);
    }
  }

  // The edit of the file and the edit of its map agree.
  ghost predicate Agree(file: Result<string, Error>, users: Result<map<string, string>, Error>) {
    match users
    case Failure(error) => file == Failure(error)
    case Success(m) => file.Success? && Good(file.value) && Parse(file.value) == m
  }

  lemma AddRefines(body: string, e: Edit, verify: (string, string) -> bool)
    requires Good(body) && CleanEdit(e) && e.Add?
    ensures Agree(Edited(body, e, verify), EditedMap(Parse(body), e, verify))
  {
    if e.user in Parse(body) {
      HashInFile(body, e.user);
    } else if UriSafe(e.user) {
      GoodAfterAdd(body, e.user, e.hash, e.comment);
    }
  }

  lemma RemoveRefines(body: string, e: Edit, verify: (string, string) -> bool)
    requires Good(body) && CleanEdit(e) && e.Remove?
    ensures Agree(Edited(body, e, verify), EditedMap(Parse(body), e, verify))
  {
    FoundInFile(body, e.user);
    if e.user in Parse(body) {
      GoodAfterRemove(body, e.user);
    }
  }

  lemma SetRefines(body: string, e: Edit, verify: (string, string) -> bool)
    requires Good(body) && CleanEdit(e) && e.Set?
    ensures Agree(Edited(body, e, verify), EditedMap(Parse(body), e, verify))
  {
    FoundInFile(body, e.user);
    if e.user in Parse(body) {
      GoodAfterReplace(body, e.user, e.hash, e.comment);
    }
  }

  lemma ChangeRefines(body: string, e: Edit, verify: (string, string) -> bool)
    requires Good(body) && CleanEdit(e) && e.Change?
    ensures Agree(Edited(body, e, verify), EditedMap(Parse(body), e, verify))
  {
    FoundInFile(body, e.user);
    if e.user in Parse(body) {
      HashInFile(body, e.user);
      GoodAfterReplace(body, e.user, e.hash, e.comment);
    }
  }

  lemma EditRefines(body: string, e: Edit, verify: (string, string) -> bool)
    requires Good(body) && CleanEdit(e)
    ensures Agree(Edited(body, e, verify), EditedMap(Parse(body), e, verify))
  {
    match e
    case Add(_, _, _) => AddRefines(body, e, verify);
    case Set(_, _, _) => SetRefines(body, e, verify);
    case Change(_, _, _, _) => ChangeRefines(body, e, verify);
    case Remove(_) => RemoveRefines(body, e, verify);
  }

  /**
   * Whatever edits the file has seen since it was empty, parsing it gives the map the same edits make,
   * and the next edit is refused for the same reason or leaves the map the same edit makes.
   */
  lemma {:induction false} FileRefinesMap(edits: seq<Edit>, verify: (string, string) -> bool)
    requires CleanEdits(edits)
    ensures Good(EditAll(edits, verify))
    ensures Parse(EditAll(edits, verify)) == EditAllMap(edits, verify)
  {
    if edits == [] {
      ParseOfNothing();
      NamesOne("");
    } else {
      var before := edits[..|edits| - 1];
      assert forall i :: 0 <= i < |before| ==> before[i] == edits[i];
      FileRefinesMap(before, verify);
      EditRefines(EditAll(before, verify), edits[|edits| - 1], verify);
    }
  }

  lemma {:induction false} NextEditRefines(edits: seq<Edit>, e: Edit, verify: (string, string) -> bool)
    requires CleanEdits(edits) && CleanEdit(e)
    ensures Agree(Edited(EditAll(edits, verify), e, verify), EditedMap(EditAllMap(edits, verify), e, verify))
  {
    FileRefinesMap(edits, verify);
    EditRefines(EditAll(edits, verify), e, verify);
  }

  // ---------------------------------------------------------------- the editors

  /** Some line of the body stands for the user. */
  predicate HasLine(body: string, user: string) {
    exists line :: line in Split(body, '\n') && Split(line, ':')[0] == user
  }

  lemma LineIsFound(body: string, user: string)
    ensures HasLine(body, user) <==> FindLine(Split(body, '\n'), user) >= 0
  {
    var lines := Split(body, '\n');
    var i := FindLine(lines, user);
    if i >= 0 {
      assert lines[i] in lines;
    }
  }

  /** No line behind the user's first one gives the name another hash. */
  predicate NoLaterHash(body: string, user: string, hash: string) {
    var lines := Split(body, '\n');
    var i := FindLine(lines, user);
    i >= 0 ==>
      var later := ParseLines(lines[i + 1..]);
      user in later ==> later[user] == hash
  }

  /** No other line names the user. */
  predicate NoOtherLine(body: string, user: string) {
    var lines := Split(body, '\n');
    var i := FindLine(lines, user);
    i >= 0 ==> user !in ParseLines(lines[..i]) && user !in ParseLines(lines[i + 1..])
  }

  predicate CleanLine(user: string, hash: string, comment: string) {
    UriSafe(user) && user != PROTO && CleanHash(hash) && '\n' !in comment
  }

  /** The hash on the first line of the user. */
  predicate Stands(body: string, user: string, stored: string) {
    var lines := Split(body, '\n');
    var i := FindLine(lines, user);
    i >= 0 && |Split(lines[i], ':')| > 1 && Split(lines[i], ':')[1] == stored
  }

  // What a replaced line does to the map.
  lemma ReplaceMeans(body: string, user: string, hash: string, comment: string)
    ensures var r := OrMissing(Replaced(body, user, GenerateLine(user, hash, comment)));
            && (if HasLine(body, user) then r.Success? else r == Failure(NoSuchUser))
            && (r.Success? && CleanLine(user, hash, comment) ==>
                  (Parse(r.value) == Parse(body)[user := hash] <==> NoLaterHash(body, user, hash)))
  {
    LineIsFound(body, user);
    if HasLine(body, user) && CleanLine(user, hash, comment) {
      SetAssigns(body, user, hash, comment);
    }
  }

  lemma RemoveMeans(body: string, user: string)
    ensures var r := OrMissing(Removed(body, user));
            && (if HasLine(body, user) then r.Success? else r == Failure(NoSuchUser))
            && (r.Success? && UriSafe(user) ==> (Parse(r.value) == Parse(body) - {user} <==> NoOtherLine(body, user)))
  {
    LineIsFound(body, user);
    if HasLine(body, user) && UriSafe(user) {
      RemoveDeletes(body, user);
    }
  }

  method SetPassword(body: string, user: string, hash: string, comment: string) returns (r: Result<string, Error>)
    ensures if HasLine(body, user) then r.Success? else r == Failure(NoSuchUser)
    ensures r.Success? && CleanLine(user, hash, comment) ==>
              (Parse(r.value) == Parse(body)[user := hash] <==> NoLaterHash(body, user, hash))
    ensures var e := Set(user, hash, comment);
            Good(body) && CleanEdit(e) ==> Agree(r, EditedMap(Parse(body), e, (_, _) => false))
  {
    ghost var e := Set(user, hash, comment);
    ReplaceMeans(body, user, hash, comment);
    if Good(body) && CleanEdit(e) {
      SetRefines(body, e, (_, _) => false);
    }
    var lines := Split(body, '\n');
    var userLineIndex := FindLine(lines, user);
    if userLineIndex == -1 {
      return Failure(NoSuchUser);
    }
    lines := lines[userLineIndex := GenerateLine(user, hash, comment)];
    return Success(Join(lines, '\n'));
  }

  /** `verify(password, hash)`; a line without a hash makes the verification throw. */
  method ChangePassword(body: string, user: string, password: string, hash: string, comment: string,
      verify: (string, string) -> bool)
    returns (r: Result<string, Error>)
    ensures r.Success? <==> exists stored :: Stands(body, user, stored) && verify(password, stored)
    ensures r.Failure? ==> r.error == if HasLine(body, user) then WrongPassword else NoSuchUser
    ensures r.Success? && CleanLine(user, hash, comment) ==>
              (Parse(r.value) == Parse(body)[user := hash] <==> NoLaterHash(body, user, hash))
    ensures var e := Change(user, password, hash, comment);
            Good(body) && CleanEdit(e) ==> Agree(r, EditedMap(Parse(body), e, verify))
  {
    ghost var e := Change(user, password, hash, comment);
    ReplaceMeans(body, user, hash, comment);
    LineIsFound(body, user);
    if Good(body) && CleanEdit(e) {
      ChangeRefines(body, e, verify);
    }
    var lines := Split(body, '\n');
    var userLineIndex := FindLine(lines, user);
    if userLineIndex == -1 {
      return Failure(NoSuchUser);
    }
    var args := Split(lines[userLineIndex], ':');
    if |args| < 2 || !verify(password, args[1]) {
      return Failure(WrongPassword);
    }
    assert Stands(body, user, args[1]);
    lines := lines[userLineIndex := GenerateLine(args[0], hash, comment)];
    return Success(Join(lines, '\n'));
  }

  method RemoveUser(body: string, user: string) returns (r: Result<string, Error>)
    ensures if HasLine(body, user) then r.Success? else r == Failure(NoSuchUser)
    ensures r.Success? && UriSafe(user) ==> (Parse(r.value) == Parse(body) - {user} <==> NoOtherLine(body, user))
    ensures var e := Remove(user);
            Good(body) && CleanEdit(e) ==> Agree(r, EditedMap(Parse(body), e, (_, _) => false))
  {
    r := DropLine(body, user);
    RemoveMeans(body, user);
    if Good(body) && CleanEdit(Remove(user)) {
      RemoveRefines(body, Remove(user), (_, _) => false);
    }
  }

  method DropLine(body: string, user: string) returns (r: Result<string, Error>)
    ensures r == OrMissing(Removed(body, user))
  {
    var lines := Split(body, '\n');
    var userLineIndex := FindLine(lines, user);
    if userLineIndex == -1 {
      return Failure(NoSuchUser);
    }
    lines := lines[..userLineIndex] + lines[userLineIndex + 1..];
    return Success(Join(lines, '\n'));
  }

  /**
   * A name is needed: the empty one matches the blank line at the end, and removing it succeeds
   * although no such user exists.
   */
  lemma EmptyNameMatchesABlankLine(user: string, hash: string, comment: string)
    requires CleanName(user) && CleanHash(hash) && '\n' !in comment
    ensures var body := EditAll([Add(user, hash, comment)], (_, _) => true);
            && "" !in Parse(body) && Removed(body, "") == Some(RecordLine(user, hash, comment))
  {
    var verify: (string, string) -> bool := (_, _) => true;
    var edits := [Add(user, hash, comment)];
    var line := RecordLine(user, hash, comment);
    ParseOfNothing();
    assert edits[..0] == [] && EditAll(edits[..0], verify) == "";
    GeneratedParses(user, hash, comment);
    RecordParses(user, hash, comment);
    var lines := [line, ""];
    assert "" + GenerateLine(user, hash, comment) == GenerateLine(user, hash, comment);
    assert FindLine(lines, "") == 1 by {
      assert Split(lines[0], ':')[0] == user && Split(lines[1], ':')[0] == "";
    }
    assert lines[..1] + lines[2..] == [line];
  }

  // A line of a file of clean edits starts with the empty name only when it is blank.
  lemma EmptyStart(line: string)
    requires line == "" || IsRecord(line)
    ensures Split(line, ':')[0] == "" <==> line == ""
  {
  }

  lemma NobodyIsEmpty(lines: seq<string>)
    requires Tidy(lines)
    ensures "" !in ParseLines(lines)
    ensures FindLine(lines, "") >= 0 <==> "" in lines
  {
    KeysAreNames(lines, "");
    if "" in Names(lines) {
      var i := LineOfName(lines, "");
      EmptyStart(lines[i]);
    }
    var i := FindLine(lines, "");
    if i >= 0 {
      EmptyStart(lines[i]);
    }
  }

  /**
   * In a file of clean edits nobody has the empty name, and yet removing it or setting its
   * password succeeds, exactly when some line is blank: removing then deletes nobody, and setting
   * gives the empty name a password.
   */
  lemma EmptyNameIsAcceptedIffBlank(body: string, hash: string, comment: string)
    requires Good(body)
    ensures "" !in Parse(body)
    ensures HasLine(body, "") <==> "" in Split(body, '\n')
    ensures var removed := Removed(body, "");
            && (removed.Some? <==> "" in Split(body, '\n'))
            && (removed.Some? ==> Parse(removed.value) == Parse(body))
    ensures var replaced := Replaced(body, "", GenerateLine("", hash, comment));
            && (replaced.Some? <==> "" in Split(body, '\n'))
            && (replaced.Some? && CleanLine("", hash, comment) ==> Parse(replaced.value) == Parse(body)["" := hash])
  {
    var lines := Split(body, '\n');
    var i := FindLine(lines, "");
    NobodyIsEmpty(lines);
    ParseIsByLine(body);
    LineIsFound(body, "");
    if i >= 0 {
      NobodyIsEmpty(lines[..i]);
      NobodyIsEmpty(lines[i + 1..]);
      RemoveDeletes(body, "");
      assert Parse(body) - {""} == Parse(body);
      if CleanLine("", hash, comment) {
        SetAssigns(body, "", hash, comment);
      }
    }
  }
}
