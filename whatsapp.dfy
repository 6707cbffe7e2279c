/**
 * The message `sendToWhatsApp` builds from a form's fields (src/lib/whatsapp.ts) and the
 * wa.me link it opens. `encodeURIComponent` is a parameter; opening the window is the result.
 */
module WhatsApp {
  import opened Common

  const WhatsAppNumber := "917984140706"
  const DefaultPrefix := "New Form Submission:"
  const LinkPrefix := "https://wa.me/" + WhatsAppNumber + "?text="

  /** One form field `*key:* value`: the key in bold, a colon inside the bold, a space, the value. */
  function EntryLine(key: string, value: string): (line: string)
    ensures |line| == |key| + |value| + 4
    ensures line[..1] == "*" && line[1..|key| + 1] == key
    ensures line[|key| + 1..|key| + 4] == ":* " && line[|key| + 4..] == value
  {
    "*" + key + ":* " + value
  }

  /** `map` over `Object.entries(data)`, in entry order. */
  function Lines(entries: seq<(string, string)>): (r: seq<string>)
    ensures |r| == |entries|
    ensures forall i :: 0 <= i < |entries| ==> r[i] == EntryLine(entries[i].0, entries[i].1)
  {
    if entries == [] then [] else [EntryLine(entries[0].0, entries[0].1)] + Lines(entries[1..])
  }

  /** `Array.prototype.join("\n")`. */
  function Join(parts: seq<string>): string {
    if parts == [] then "" else if |parts| == 1 then parts[0] else parts[0] + "\n" + Join(parts[1..])
  }

  /** Splitting on "\n", the partner of `Join`. */
  function Split(s: string): (r: seq<string>)
    ensures |r| >= 1
  {
    if s == [] then [""]
    else
      var rest := Split(s[1..]);
      if s[0] == '\n' then [""] + rest else [[s[0]] + rest[0]] + rest[1..]
  }

  function NewlineCount(s: string): nat {
    if s == [] then 0 else (if s[0] == '\n' then 1 else 0) + NewlineCount(s[1..])
  }

  predicate NoNewline(s: string) {
    forall i :: 0 <= i < |s| ==> s[i] != '\n'
  }

  lemma {:induction false} SplitLine(a: string)
    requires NoNewline(a)
    ensures Split(a) == [a]
    decreases |a|
  {
    if a != [] {
      SplitLine(a[1..]);
      assert [a[0]] + a[1..] == a;
    }
  }

  lemma {:induction false} SplitAfterLine(a: string, b: string)
    requires NoNewline(a)
    ensures Split(a + "\n" + b) == [a] + Split(b)
    decreases |a|
  {
    if a == [] {
      assert a + "\n" + b == "\n" + b;
      assert ("\n" + b)[1..] == b;
    } else {
      assert (a + "\n" + b)[1..] == a[1..] + "\n" + b;
      SplitAfterLine(a[1..], b);
      assert [a[0]] + a[1..] == a;
    }
  }

  /** Joining lines without newlines and splitting again gives the lines back. */
  lemma {:induction false} SplitJoin(parts: seq<string>)
    requires |parts| >= 1
    requires forall i :: 0 <= i < |parts| ==> NoNewline(parts[i])
    ensures Split(Join(parts)) == parts
    decreases |parts|
  {
    if |parts| == 1 {
      SplitLine(parts[0]);
    } else {
      SplitAfterLine(parts[0], Join(parts[1..]));
      SplitJoin(parts[1..]);
    }
  }

  lemma NewlineCountAppend(a: string, b: string)
    ensures NewlineCount(a + b) == NewlineCount(a) + NewlineCount(b)
    decreases |a|
  {
    if a != [] {
      assert (a + b)[0] == a[0];
      assert (a + b)[1..] == a[1..] + b;
      NewlineCountAppend(a[1..], b);
    } else {
      assert a + b == b;
    }
  }

  lemma {:induction false} NoNewlineCount(a: string)
    requires NoNewline(a)
    ensures NewlineCount(a) == 0
    decreases |a|
  {
    if a != [] {
      NoNewlineCount(a[1..]);
    }
  }

  /** `n` lines without newlines are joined by exactly `n - 1` separators. */
  lemma {:induction false} JoinSeparators(parts: seq<string>)
    requires |parts| >= 1
    requires forall i :: 0 <= i < |parts| ==> NoNewline(parts[i])
    ensures NewlineCount(Join(parts)) == |parts| - 1
    decreases |parts|
  {
    NoNewlineCount(parts[0]);
    if |parts| > 1 {
      JoinSeparators(parts[1..]);
      NewlineCountAppend(parts[0] + "\n", Join(parts[1..]));
      NewlineCountAppend(parts[0], "\n");
    }
  }

  lemma EntryLineNoNewline(key: string, value: string)
    requires NoNewline(key) && NoNewline(value)
    ensures NoNewline(EntryLine(key, value))
  {
    var line := EntryLine(key, value);
    forall j | 0 <= j < |line|
      ensures line[j] != '\n'
    {
      if j == 0 {
      } else if j < |key| + 1 {
        assert line[j] == key[j - 1];
      } else if j < |key| + 4 {
      } else {
        assert line[j] == value[j - |key| - 4];
      }
    }
  }

  /** The field block of the message. */
  function FormattedMessage(entries: seq<(string, string)>): string {
    Join(Lines(entries))
  }

  /** Fields without newlines come back out of the message one per line, in order. */
  lemma FormattedMessageLines(entries: seq<(string, string)>)
    requires |entries| >= 1
    requires forall i :: 0 <= i < |entries| ==> NoNewline(entries[i].0) && NoNewline(entries[i].1)
    ensures Split(FormattedMessage(entries)) == Lines(entries)
    ensures NewlineCount(FormattedMessage(entries)) == |entries| - 1
  {
    var lines := Lines(entries);
    forall i | 0 <= i < |lines|
      ensures NoNewline(lines[i])
    {
      EntryLineNoNewline(entries[i].0, entries[i].1);
    }
    SplitJoin(lines);
    JoinSeparators(lines);
  }

  /** The prefix (by default "New Form Submission:"), a blank line, then the field block. */
  function FullMessage(prefix: Option<string>, entries: seq<(string, string)>): (m: string)
    ensures var p := prefix.GetOr(DefaultPrefix);
      && |m| == |p| + 2 + |FormattedMessage(entries)|
      && m[..|p|] == p && m[|p|..|p| + 2] == "\n\n" && m[|p| + 2..] == FormattedMessage(entries)
  {
    prefix.GetOr(DefaultPrefix) + "\n\n" + FormattedMessage(entries)
  }

  /** The URL `sendToWhatsApp` opens: the wa.me link for the fixed number with the encoded text. */
  function WhatsAppUrl(encode: string -> string, prefix: Option<string>, entries: seq<(string, string)>): (url: string)
    ensures |url| >= |LinkPrefix| && url[..|LinkPrefix|] == LinkPrefix
    ensures url[|LinkPrefix|..] == encode(FullMessage(prefix, entries))
  {
    LinkPrefix + encode(FullMessage(prefix, entries))
  }
}
