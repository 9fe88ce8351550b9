/** How the `chat message` handler decides what to do with a message from a
    registered socket: relay it, or treat it as the admin's `/ban` command. */
module Dispatch {
  import opened Wrappers
  import opened JsString
  import opened Events

  /** The one display name allowed to ban. */
  const Admin: string := "TemMoose"

  datatype Action =
    | Relay                   // broadcast the message as it is
    | BanUsage                // `/ban` without a name: usage notice to the sender
    | BanName(target: string) // `/ban <name>`

  /** `msg.text.trim().startsWith('/')`. */
  predicate IsCommand(text: string) {
    "/" <= Trim(text)
  }

  /** `msg.text.trim().split(/\s+/)`. */
  function Words(text: string): seq<string> {
    SplitWs(Trim(text))
  }

  /** `parts.slice(1).join(' ').trim()`: the ban target. */
  function TargetName(text: string): string {
    Trim(Join(Words(text)[1..], " "))
  }

  /** The branch the handler takes for a message sent by `sender`. */
  function Route(sender: string, msg: ChatMsg): (a: Action)
    ensures a != Relay ==> sender == Admin && msg.text.Some? && IsCommand(msg.text.value)
    ensures a != Relay ==> ToLowerAscii(Words(msg.text.value)[0]) == "/ban"
    ensures a.BanName? ==> a.target != "" && !IsSpace(a.target[0]) && !IsSpace(a.target[|a.target| - 1])
  {
    match msg.text
    case Some(text) =>
      if IsCommand(text) && ToLowerAscii(Words(text)[0]) == "/ban" && sender == Admin then
        var target := TargetName(text);
        if target == "" then BanUsage else BanName(target)
      else Relay
    case None => Relay
  }

  /** `/ban` in any mixture of cases has no white space and starts with `/`. */
  lemma BanWordShape(w: string)
    requires ToLowerAscii(w) == "/ban"
    ensures |w| == 4 && w[0] == '/' && NoSpace(w) && "/" <= w
  {
    LowersToBan(w);
  }

  lemma Regroup(pre: string, w: string, gap: string, rest: string, post: string)
    ensures pre + w + gap + rest + post == pre + (w + gap + rest) + post
  {
  }

  /** A padded `/ban` followed by words separated by white space is a command whose
      words are `/ban` and those words. */
  lemma BanTextWords(pre: string, w: string, gap: string, names: seq<string>, gaps: seq<string>, post: string)
    requires AllSpace(pre) && AllSpace(post) && gap != [] && AllSpace(gap)
    requires ToLowerAscii(w) == "/ban"
    requires |gaps| + 1 == |names| && AreWords(names) && AreGaps(gaps)
    ensures var text := pre + w + gap + Spaced(names, gaps) + post;
      IsCommand(text) && Words(text) == [w] + names
  {
    var ws, gs := [w] + names, [gap] + gaps;
    BanWordShape(w);
    assert ws[1..] == names && gs[1..] == gaps;
    var core := Spaced(ws, gs);
    assert core == w + gap + Spaced(names, gaps);
    Regroup(pre, w, gap, Spaced(names, gaps), post);
    SpacedEnds(ws, gs);
    TrimPadded(pre, core, post);
    assert core[0] == '/';
    SplitWsSpaced(ws, gs);
  }

  /** The admin's `/ban <name>`, in any case and with any padding, where the name is
      the words `names` with any runs of white space between them and before them, bans
      exactly those words joined by single spaces. */
  lemma BanCommandParses(user: Option<string>, image: Option<string>, pre: string, w: string,
                         gap: string, names: seq<string>, gaps: seq<string>, post: string)
    requires AllSpace(pre) && AllSpace(post) && gap != [] && AllSpace(gap)
    requires ToLowerAscii(w) == "/ban"
    requires |gaps| + 1 == |names| && AreWords(names) && AreGaps(gaps)
    ensures Route(Admin, ChatMsg(user, Some(pre + w + gap + Spaced(names, gaps) + post), image))
      == BanName(Join(names, " "))
  {
    var text := pre + w + gap + Spaced(names, gaps) + post;
    BanTextWords(pre, w, gap, names, gaps, post);
    assert Words(text)[0] == w && Words(text)[1..] == names;
    JoinWordsTrimmed(names);
  }

  /** The admin's bare `/ban`, in any case and with any padding, only earns the usage
      notice. */
  lemma BareBanIsUsage(user: Option<string>, image: Option<string>, pre: string, w: string, post: string)
    requires AllSpace(pre) && AllSpace(post)
    requires ToLowerAscii(w) == "/ban"
    ensures Route(Admin, ChatMsg(user, Some(pre + w + post), image)) == BanUsage
  {
    BanWordShape(w);
    TrimPadded(pre, w, post);
    SplitWsWord(w);
    assert Words(pre + w + post)[1..] == [];
    assert Trim("") == "";
  }
}
