/** The inquiry resolvers: pure first-match tables from a response buffer to the
    bytes to send back, where `None` means "stop waiting". */
module Inquiry {
  import opened Text

  /** The controller's command prompt: a line feed followed by `>`. */
  const Prompt := "\n>"
  const PagingCue := "Press SPACE key to continue."
  const YesNoCue := "Yes:1, No:0"

  /** Command terminators, in the order the source lists them. */
  const CmdTerminators: seq<string> := [Prompt, PagingCue, YesNoCue]

  const LoadAllMenu := "1:Yes, 0:No / 2:Load all, 3:Exit"
  const ErrorsCue := "errors"
  const DeleteCue := "Delete program and abort"
  const ConfirmCue := "Are you sure"
  const ForceCue := "Force load"
  const EnterCue := "Press ENTER."
  /** End-of-transfer marker: `E` followed by ETB. */
  const EndMarker := "E\U{17}"
  const BusyBanner := "LOAD in progress"

  /** The transfer terminators as the source writes them (regular expressions for
      telnetlib's `expect`).  A missing comma makes Python join the last two literals,
      so the list has nine entries and `Force load` is only matched when it is
      immediately followed by `Press ENTER.`. */
  const AsTerminators: seq<string> := [
    ".as",
    BusyBanner,
    LoadAllMenu,
    DeleteCue,
    "Are you sure ? \\(Yes:1, No:0\\)",
    EndMarker,
    ErrorsCue,
    "\U{02}C\U{17}",
    ForceCue + EnterCue
  ]

  /** One row of a first-match-wins resolver table. */
  datatype Rule = Rule(cue: string, reply: Option<string>)

  /** Reference semantics of a resolver table: the reply of the first rule whose cue
      occurs in `msg`, or `fallback` when none does. */
  function FirstMatch(rules: seq<Rule>, fallback: Option<string>, msg: string): (r: Option<string>)
    ensures (forall k :: 0 <= k < |rules| ==> !Contains(msg, rules[k].cue)) ==> r == fallback
    ensures rules != [] && Contains(msg, rules[0].cue) ==> r == rules[0].reply
    ensures r == fallback || exists k :: 0 <= k < |rules| && r == rules[k].reply
  {
    if rules == [] then fallback
    else if Contains(msg, rules[0].cue) then rules[0].reply
    else FirstMatch(rules[1..], fallback, msg)
  }

  /** `FirstMatch` on a table with a given first rule. */
  lemma FirstMatchCons(r: Rule, rest: seq<Rule>, fallback: Option<string>, msg: string)
    ensures FirstMatch([r] + rest, fallback, msg) ==
            if Contains(msg, r.cue) then r.reply else FirstMatch(rest, fallback, msg)
  {
    assert ([r] + rest)[0] == r && ([r] + rest)[1..] == rest;
  }

  const CmdRules: seq<Rule> := [Rule(Prompt, None), Rule(PagingCue, Some(" ")), Rule(YesNoCue, Some("1"))]

  const AsRules: seq<Rule> := [
    Rule(ErrorsCue, Some("break")),
    Rule(LoadAllMenu, Some("2\r\n")),
    Rule(EndMarker, None),
    Rule(DeleteCue, Some("0\r\n")),
    Rule(ConfirmCue, Some("1\r\n")),
    Rule(ForceCue, Some("9\r\n")),
    Rule(EnterCue, Some("\r\n"))
  ]

  /** Default resolver for plain commands: stop at the prompt, page with a space,
      confirm with `1`, and otherwise send nothing and keep reading. */
  function DefaultCmdInquiry(msg: string): (r: Option<string>)
    ensures r.None? <==> Contains(msg, Prompt)
    ensures r == Some(" ") <==> !Contains(msg, Prompt) && Contains(msg, PagingCue)
    ensures r == Some("1") <==> !Contains(msg, Prompt) && !Contains(msg, PagingCue) && Contains(msg, YesNoCue)
    ensures r == Some("") <==> !Contains(msg, Prompt) && !Contains(msg, PagingCue) && !Contains(msg, YesNoCue)
  {
    if Contains(msg, Prompt) then None
    else if Contains(msg, PagingCue) then Some(" ")
    else if Contains(msg, YesNoCue) then Some("1")
    else Some("")
  }

  /** The earlier variant tests the terminator list by index; it is the same resolver. */
  function IndexedCmdInquiry(msg: string): (r: Option<string>)
    ensures r == DefaultCmdInquiry(msg)
  {
    if Contains(msg, CmdTerminators[0]) then None
    else if Contains(msg, CmdTerminators[1]) then Some(" ")
    else if Contains(msg, CmdTerminators[2]) then Some("1")
    else Some("")
  }

  /** Default resolver for save/load exchanges. */
  function DefaultAsInquiry(msg: string): (r: Option<string>)
    ensures Contains(msg, ErrorsCue) ==> r == Some("break")
    ensures r.None? <==>
      !Contains(msg, ErrorsCue) && !Contains(msg, LoadAllMenu) &&
      (Contains(msg, EndMarker) ||
       (!Contains(msg, DeleteCue) && !Contains(msg, ConfirmCue) &&
        !Contains(msg, ForceCue) && !Contains(msg, EnterCue)))
  {
    if Contains(msg, ErrorsCue) then Some("break")
    else if Contains(msg, LoadAllMenu) then Some("2\r\n")
    else if Contains(msg, EndMarker) then None
    else if Contains(msg, DeleteCue) then Some("0\r\n")
    else if Contains(msg, ConfirmCue) then Some("1\r\n")
    else if Contains(msg, ForceCue) then Some("9\r\n")
    else if Contains(msg, EnterCue) then Some("\r\n")
    else None
  }

  /** The command resolver is exactly the first-match table `CmdRules` with the
      empty reply as fallback. */
  lemma CmdInquiryIsTable(msg: string)
    ensures DefaultCmdInquiry(msg) == FirstMatch(CmdRules, Some(""), msg)
  {
    assert CmdRules[1..][1..][1..] == [];
  }

  /** The transfer resolver is exactly the first-match table `AsRules` with "stop"
      as fallback. */
  lemma AsInquiryIsTable(msg: string)
    ensures DefaultAsInquiry(msg) == FirstMatch(AsRules, None, msg)
  {
    var t6 := [Rule(EnterCue, Some("\r\n"))];
    var t5 := [Rule(ForceCue, Some("9\r\n"))] + t6;
    var t4 := [Rule(ConfirmCue, Some("1\r\n"))] + t5;
    var t3 := [Rule(DeleteCue, Some("0\r\n"))] + t4;
    var t2 := [Rule(EndMarker, None)] + t3;
    var t1 := [Rule(LoadAllMenu, Some("2\r\n"))] + t2;
    var t0 := [Rule(ErrorsCue, Some("break"))] + t1;
    assert t0 == AsRules;
    FirstMatchCons(t6[0], [], None, msg);
    assert [t6[0]] + [] == t6;
    FirstMatchCons(t5[0], t6, None, msg);
    FirstMatchCons(t4[0], t5, None, msg);
    FirstMatchCons(t3[0], t4, None, msg);
    FirstMatchCons(t2[0], t3, None, msg);
    FirstMatchCons(t1[0], t2, None, msg);
    FirstMatchCons(t0[0], t1, None, msg);
  }

  /** Every reply the transfer resolver can give is one of the six table replies,
      and none of them starts with STX, so no reply can be mistaken for a frame. */
  lemma AsRepliesAreNotFrames(msg: string)
    ensures DefaultAsInquiry(msg).Some? ==>
      DefaultAsInquiry(msg).value in ["break", "2\r\n", "0\r\n", "1\r\n", "9\r\n", "\r\n"] &&
      !StartsWith(DefaultAsInquiry(msg).value, "\U{02}")
  {
    var r := DefaultAsInquiry(msg);
    if r.Some? {
      assert r.value[0] != '\U{02}';
    }
  }

  /** The transfer terminator list has nine entries; the last is the fused pattern. */
  lemma FusedTerminator()
    ensures |AsTerminators| == 9
    ensures AsTerminators[8] == ForceCue + EnterCue == "Force loadPress ENTER."
    ensures ForceCue !in AsTerminators && EnterCue !in AsTerminators
  {
  }
}
