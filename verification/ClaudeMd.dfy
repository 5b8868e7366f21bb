/**
The CLAUDE.md file of the command line client: the generated text, and the update that replaces only the section
between the two headings.
*/
module ClaudeMd {
  import opened Common
  import Text

  const START_MARKER: string := "## 可用 Skill 列表"
  const END_MARKER: string := "## 操作示例"

  datatype Param = Param(name: string, kind: string, required: bool)
  datatype SkillInfo = SkillInfo(name: string, description: string, parameters: seq<Param>)
  datatype Config = Config(enterprise: string, apiEndpoint: string, role: string, skills: seq<SkillInfo>)

  // ---------------------------------------------------------------------------------------------
  // The generated text

  function ParamLine(p: Param): string {
    "- " + p.name + " [" + p.kind + "]" + (if p.required then "(必填)" else "") + "\n"
  }

  function ParamLines(ps: seq<Param>): string {
    if ps == [] then "" else ParamLines(ps[..|ps| - 1]) + ParamLine(ps[|ps| - 1])
  }

  function SkillHead(skill: SkillInfo): string {
    "### " + skill.name + "\n" + skill.description + "\n\n"
  }

  function SkillText(skill: SkillInfo): string {
    SkillHead(skill) + if skill.parameters == [] then "" else "参数:\n" + ParamLines(skill.parameters) + "\n"
  }

  function SkillTexts(skills: seq<SkillInfo>): string {
    if skills == [] then "" else SkillTexts(skills[..|skills| - 1]) + SkillText(skills[|skills| - 1])
  }

  function SectionText(skills: seq<SkillInfo>): string {
    START_MARKER + "\n\n" + SkillTexts(skills)
  }

  function Header(config: Config): string {
    "# AI-Automated-office Agent 配置\n\n" + "## 企业: " + config.enterprise + "\n"
    + "## API端点: " + config.apiEndpoint + "\n" + "## 角色: " + config.role + "\n\n"
  }

  function Examples(): string {
    END_MARKER + "\n\n" + "```bash\nao-cli skill execute hrm_employee_list --page 1 --page-size 20\n```\n"
  }

  function Generated(config: Config): string {
    Header(config) + SectionText(config.skills) + Examples()
  }

  method WriteParams(written: string, ps: seq<Param>) returns (text: string)
    ensures text == written + ParamLines(ps)
  {
    text := written;
    var j := 0;
    while j < |ps|
      invariant 0 <= j <= |ps|
      invariant text == written + ParamLines(ps[..j])
    {
      var p := ps[j];
      var req := "";
      if p.required { req := "(必填)"; }
      ghost var before := text;
      text := text + ("- " + p.name + " [" + p.kind + "]" + req + "\n");
      assert text == before + ParamLine(p);
      assert ps[..j + 1][..j] == ps[..j];
      assert before + ParamLine(p) == written + (ParamLines(ps[..j]) + ParamLine(p));
      j := j + 1;
    }
    assert ps[..j] == ps;
  }

  method WriteSkill(written: string, skill: SkillInfo) returns (text: string)
    ensures text == written + SkillText(skill)
  {
    hide ParamLines;
    text := written + ("### " + skill.name + "\n" + skill.description + "\n\n");
    if |skill.parameters| > 0 {
      text := text + "参数:\n";
      text := WriteParams(text, skill.parameters);
      text := text + "\n";
    }
  }

  /** The header names the enterprise, the endpoint and the role on a line each, in this order. */
  lemma HeaderShows(config: Config)
    ensures var top, middle, last := "# AI-Automated-office Agent 配置\n\n## 企业: ", "\n## API端点: ", "\n## 角色: ";
            Header(config) == top + config.enterprise + middle + config.apiEndpoint + last + config.role + "\n\n"
  {
    assert "# AI-Automated-office Agent 配置\n\n## 企业: " == "# AI-Automated-office Agent 配置\n\n" + "## 企业: ";
    assert "\n## API端点: " == "\n" + "## API端点: " && "\n## 角色: " == "\n" + "## 角色: ";
    RegroupHeader("# AI-Automated-office Agent 配置\n\n" + "## 企业: ", config.enterprise, "\n", "## API端点: ", config.apiEndpoint,
                  "## 角色: ", config.role + "\n\n");
  }

  lemma RegroupHeader(a: string, b: string, nl: string, c: string, d: string, e: string, f: string)
    ensures a + b + nl + c + d + nl + e + f == a + b + (nl + c) + d + (nl + e) + f
  {}

  /** A parameter's line shows its name behind "- ", its type between brackets, and at its end whether it is required. */
  lemma ParamLineShows(p: Param)
    ensures var line, n := ParamLine(p), 2 + |p.name|;
            && line[..2] == "- " && line[2..n] == p.name
            && line[n..n + 2] == " [" && line[n + 2..n + 2 + |p.kind|] == p.kind
            && line[n + 2 + |p.kind|..] == if p.required then "](必填)\n" else "]\n"
  {
    var head, rest := "- " + p.name + " [", "]" + (if p.required then "(必填)" else "") + "\n";
    assert ParamLine(p) == head + p.kind + rest;
    assert rest == if p.required then "](必填)\n" else "]\n";
    hide ParamLine;
    assert head[..2] == "- " && head[2..2 + |p.name|] == p.name && head[2 + |p.name|..] == " [";
  }

  /** A skill's text shows its name in the title and its description below, and a list of parameters exactly when it has
      any. */
  lemma SkillTextShows(skill: SkillInfo)
    ensures var text, n := SkillText(skill), 4 + |skill.name|;
            && text[..4] == "### " && text[4..n] == skill.name && text[n] == '\n'
            && text[n + 1..n + 1 + |skill.description|] == skill.description
            && text[n + 1 + |skill.description|..] == if skill.parameters == [] then "\n\n"
                                                      else "\n\n参数:\n" + ParamLines(skill.parameters) + "\n"
  {
    hide ParamLines;
    var title, lists := "### " + skill.name + "\n", if skill.parameters == [] then "\n\n" else "\n\n参数:\n" + ParamLines(skill.parameters) + "\n";
    assert SkillText(skill) == title + skill.description + lists by {
      if skill.parameters != [] { assert "\n\n参数:\n" == "\n\n" + "参数:\n"; }
    }
    hide SkillText;
    assert title[..4] == "### " && title[4..4 + |skill.name|] == skill.name && title[4 + |skill.name|] == '\n';
  }

  lemma Regroup(x: string, y: string, z: string)
    ensures (x + y) + z == x + (y + z)
    ensures "" + z == z && x + "" == x
  {}

  lemma SkillTextsEmpty()
    ensures SkillTexts([]) == ""
  {}

  lemma SkillTextsLast(xs: seq<SkillInfo>, x: SkillInfo)
    ensures SkillTexts(xs + [x]) == SkillTexts(xs) + SkillText(x)
  {
    assert (xs + [x])[..|xs|] == xs;
  }

  /** Skills, and the parameters of a skill, are written in their order. */
  lemma {:induction false} SkillsInOrder(a: seq<SkillInfo>, b: seq<SkillInfo>)
    ensures SkillTexts(a + b) == SkillTexts(a) + SkillTexts(b)
    ensures b != [] ==> SkillTexts(b[..1]) == SkillText(b[0])
  {
    hide SkillText, SkillTexts;
    SkillTextsEmpty();
    if b == [] {
      assert a + b == a;
    } else {
      var n := |b| - 1;
      SkillsInOrder(a, b[..n]);
      assert a + b == (a + b[..n]) + [b[n]] && b == b[..n] + [b[n]] && b[..1] == [] + [b[0]];
      SkillTextsLast(a + b[..n], b[n]);
      SkillTextsLast(b[..n], b[n]);
      SkillTextsLast([], b[0]);
      Regroup(SkillTexts(a), SkillTexts(b[..n]), SkillText(b[n]));
    }
  }

  lemma ParamLinesEmpty()
    ensures ParamLines([]) == ""
  {}

  lemma ParamLinesLast(xs: seq<Param>, x: Param)
    ensures ParamLines(xs + [x]) == ParamLines(xs) + ParamLine(x)
  {
    assert (xs + [x])[..|xs|] == xs;
  }

  lemma {:induction false} ParamsInOrder(a: seq<Param>, b: seq<Param>)
    ensures ParamLines(a + b) == ParamLines(a) + ParamLines(b)
    ensures b != [] ==> ParamLines(b[..1]) == ParamLine(b[0])
  {
    hide ParamLine, ParamLines;
    ParamLinesEmpty();
    if b == [] {
      assert a + b == a;
    } else {
      var n := |b| - 1;
      ParamsInOrder(a, b[..n]);
      assert a + b == (a + b[..n]) + [b[n]] && b == b[..n] + [b[n]] && b[..1] == [] + [b[0]];
      ParamLinesLast(a + b[..n], b[n]);
      ParamLinesLast(b[..n], b[n]);
      ParamLinesLast([], b[0]);
      Regroup(ParamLines(a), ParamLines(b[..n]), ParamLine(b[n]));
    }
  }

  /** The loop over the skills that both generators contain. */
  method WriteSkills(written: string, skills: seq<SkillInfo>) returns (text: string)
    ensures text == written + SkillTexts(skills)
  {
    hide SkillText;
    text := written;
    var i := 0;
    while i < |skills|
      invariant 0 <= i <= |skills|
      invariant text == written + SkillTexts(skills[..i])
    {
      ghost var before := SkillTexts(skills[..i]);
      text := WriteSkill(text, skills[i]);
      assert skills[..i + 1][..i] == skills[..i];
      assert written + before + SkillText(skills[i]) == written + (before + SkillText(skills[i]));
      i := i + 1;
    }
    assert skills[..i] == skills;
  }

  method GenerateSkillsSection(config: Config) returns (text: string)
    ensures text == SectionText(config.skills)
  {
    text := WriteSkills("## 可用 Skill 列表\n\n", config.skills);
    assert START_MARKER + "\n\n" == "## 可用 Skill 列表\n\n";
  }

  method GenerateClaudeMD(config: Config) returns (text: string)
    ensures text == Generated(config)
  {
    hide SkillTexts, Header;
    text := WriteHeader(config);
    text := text + "## 可用 Skill 列表\n\n";
    text := WriteSkills(text, config.skills);
    text := text + "## 操作示例\n\n";
    text := text + "```bash\nao-cli skill execute hrm_employee_list --page 1 --page-size 20\n```\n";
    assert START_MARKER + "\n\n" == "## 可用 Skill 列表\n\n" && END_MARKER + "\n\n" == "## 操作示例\n\n";
    RegroupGenerated(Header(config), START_MARKER + "\n\n", SkillTexts(config.skills), END_MARKER + "\n\n",
                     "```bash\nao-cli skill execute hrm_employee_list --page 1 --page-size 20\n```\n");
  }

  lemma RegroupGenerated(a: string, b: string, c: string, d: string, e: string)
    ensures a + b + c + d + e == a + (b + c) + (d + e)
  {
  }

  method WriteHeader(config: Config) returns (text: string)
    ensures text == Header(config)
  {
    text := "# AI-Automated-office Agent 配置\n\n";
    text := text + ("## 企业: " + config.enterprise + "\n");
    text := text + ("## API端点: " + config.apiEndpoint + "\n");
    text := text + ("## 角色: " + config.role + "\n\n");
  }

  // ---------------------------------------------------------------------------------------------
  // The update

  /** Both headings are there, and the example heading comes after the skill heading. */
  predicate Spliceable(existing: string) {
    Text.Contains(existing, START_MARKER) && Text.Index(existing, END_MARKER) > Text.Index(existing, START_MARKER)
  }

  function Updated(existing: string, config: Config): string {
    if Spliceable(existing) then
      existing[..Text.Index(existing, START_MARKER)] + SectionText(config.skills) + "\n\n"
      + existing[Text.Index(existing, END_MARKER)..]
    else Generated(config)
  }

  /** What runInitUpdate leaves in CLAUDE.md, which may not have existed. */
  method UpdateFile(existing: Option<string>, config: Config) returns (text: string)
    ensures text == if existing.Some? then Updated(existing.value, config) else Generated(config)
  {
    if existing.None? {
      text := GenerateClaudeMD(config);
    } else {
      var skillsSection := GenerateSkillsSection(config);
      var startIdx := Text.Index(existing.value, "## 可用 Skill 列表");
      var endIdx := Text.Index(existing.value, "## 操作示例");
      if startIdx != -1 && endIdx != -1 && endIdx > startIdx {
        text := existing.value[..startIdx] + skillsSection + "\n\n" + existing.value[endIdx..];
      } else {
        text := GenerateClaudeMD(config);
      }
    }
  }

  lemma OverlapAgrees(x: string, p: string, q: string, i: int, j: int)
    requires |q| >= 2 && Text.At(x, p, i) && Text.At(x, q, j) && i <= j < i + |p|
    ensures p[j - i] == q[0] && (j + 1 < i + |p| ==> p[j - i + 1] == q[1])
  {
    assert q[0] == x[j + 0] && q[1] == x[j + 1];
    assert p[j - i] == x[i + (j - i)];
    assert j + 1 < i + |p| ==> p[j - i + 1] == x[i + (j - i + 1)];
  }

  /** The two first characters of `q` do not follow each other inside `p`, so an occurrence of `q` that begins after
      the start of an occurrence of `p` begins after its end. */
  lemma OccurrencesApart(x: string, p: string, q: string, i: int, j: int)
    requires |q| >= 2 && Text.At(x, p, i) && Text.At(x, q, j) && i < j
    requires forall d :: 1 <= d < |p| && p[d] == q[0] ==> d + 1 < |p| && p[d + 1] != q[1]
    ensures i + |p| <= j
  {
    if j < i + |p| { OverlapAgrees(x, p, q, i, j); }
  }

  lemma MarkersDoNotMix()
    ensures forall d :: 1 <= d < |START_MARKER| && START_MARKER[d] == END_MARKER[0] ==>
      d + 1 < |START_MARKER| && START_MARKER[d + 1] != END_MARKER[1]
    ensures 2 <= |END_MARKER| <= |START_MARKER| && '\n' !in END_MARKER && END_MARKER[|END_MARKER| - 1] != '\n'
  {
    assert START_MARKER[2..] == " 可用 Skill 列表";
    assert '#' !in START_MARKER[2..];
    assert forall d :: 2 <= d < |START_MARKER| ==> START_MARKER[d] == START_MARKER[2..][d - 2];
  }

  /** The skill heading ends before the first example heading begins. */
  lemma MarkersApart(x: string)
    requires Spliceable(x)
    ensures Text.FirstAt(x, START_MARKER, Text.Index(x, START_MARKER)) && Text.FirstAt(x, END_MARKER, Text.Index(x, END_MARKER))
    ensures Text.Index(x, START_MARKER) + |START_MARKER| <= Text.Index(x, END_MARKER)
  {
    hide Text.Index, Text.At, START_MARKER, END_MARKER;
    Text.IndexIsFirst(x, START_MARKER);
    Text.IndexIsFirst(x, END_MARKER);
    MarkersDoNotMix();
    OccurrencesApart(x, START_MARKER, END_MARKER, Text.Index(x, START_MARKER), Text.Index(x, END_MARKER));
  }

  function StartIdx(x: string): int { Text.Index(x, START_MARKER) }
  function EndIdx(x: string): int { Text.Index(x, END_MARKER) }

  /** The two texts agree up to the end of the skill heading, so it stays where it was and none arises before it. */
  lemma HeadingStays(x: string, u: string)
    requires Text.Contains(x, START_MARKER)
    requires var n := StartIdx(x) + |START_MARKER|; n <= |x| && n <= |u| && u[..n] == x[..n]
    ensures StartIdx(u) == StartIdx(x) && Text.Contains(u, START_MARKER)
  {
    hide Text.Index, Text.At, START_MARKER;
    var s, n := StartIdx(x), StartIdx(x) + |START_MARKER|;
    Text.IndexIsFirst(x, START_MARKER);
    Text.AtBounds(u, START_MARKER);
    assert x == x[..n] + x[n..] && u == x[..n] + u[n..];
    forall i | i <= s ensures Text.At(u, START_MARKER, i) <==> Text.At(x, START_MARKER, i) {
      Text.AtFront(x[..n], x[n..], START_MARKER, i);
      Text.AtFront(x[..n], u[n..], START_MARKER, i);
    }
    Text.FirstIsIndex(u, START_MARKER, s);
  }

  function Front(x: string, config: Config): string
    requires Spliceable(x)
  {
    x[..StartIdx(x)] + SectionText(config.skills) + "\n\n"
  }

  lemma UpdateSplits(x: string, config: Config)
    requires Spliceable(x)
    ensures var n := StartIdx(x) + |START_MARKER|;
            && n <= EndIdx(x) <= |x| && n <= |Updated(x, config)|
            && Updated(x, config) == Front(x, config) + x[EndIdx(x)..]
            && Front(x, config) == x[..n] + ['\n'] + ("\n" + SkillTexts(config.skills) + "\n\n")
            && Updated(x, config)[..n] == x[..n]
            && |Front(x, config)| > n && Front(x, config)[|Front(x, config)| - 1] == '\n'
            && 0 <= StartIdx(x) < n && StartIdx(x) + |END_MARKER| <= n
  {
    hide Text.Index, Text.At, START_MARKER, END_MARKER, SkillTexts, SectionText, Front, Updated, Spliceable;
    MarkersApart(x);
    MarkersDoNotMix();
    StartIsThere(x);
    FrontThenKept(x, config);
    var s, n, front := StartIdx(x), StartIdx(x) + |START_MARKER|, Front(x, config);
    assert x[..n] == x[..s] + START_MARKER;
    RegroupFront(x[..s], START_MARKER, SkillTexts(config.skills));
    FrontThenRest(x[..n], ['\n'] + ("\n" + SkillTexts(config.skills) + "\n\n"), x[EndIdx(x)..]);
  }

  lemma FrontThenKept(x: string, config: Config)
    requires Spliceable(x)
    ensures 0 <= StartIdx(x) <= |x| && 0 <= EndIdx(x) <= |x|
    ensures Updated(x, config) == Front(x, config) + x[EndIdx(x)..]
    ensures Front(x, config) == x[..StartIdx(x)] + (START_MARKER + "\n\n" + SkillTexts(config.skills)) + "\n\n"
  {
    hide START_MARKER, END_MARKER, SkillTexts;
  }

  lemma RegroupFront(before: string, heading: string, texts: string)
    ensures var front := before + (heading + "\n\n" + texts) + "\n\n";
            && front == (before + heading) + (['\n'] + ("\n" + texts + "\n\n"))
            && front == (before + heading) + ['\n'] + ("\n" + texts + "\n\n")
            && front[|front| - 1] == '\n'
  {
  }

  lemma FrontThenRest(head: string, rest: string, tail: string)
    ensures (head + rest + tail)[..|head|] == head
  {
  }

  lemma NoExampleBefore(x: string, n: nat)
    requires Spliceable(x) && n <= EndIdx(x) <= |x|
    ensures forall i :: !Text.At(x[..n], END_MARKER, i)
  {
    hide Text.Index, Text.At, START_MARKER, END_MARKER;
    MarkersApart(x);
    MarkersDoNotMix();
    assert x == x[..n] + x[n..];
    Text.AtBounds(x[..n], END_MARKER);
    forall i ensures !Text.At(x[..n], END_MARKER, i) {
      if i + |END_MARKER| <= n { Text.AtFront(x[..n], x[n..], END_MARKER, i); }
    }
  }

  lemma ExampleIsKept(x: string, front: string)
    requires Spliceable(x)
    ensures Text.At(front + x[EndIdx(x)..], END_MARKER, |front|)
  {
    hide Text.Index, Text.At, START_MARKER, END_MARKER;
    var e := EndIdx(x);
    MarkersApart(x);
    assert x == x[..e] + x[e..] && |x[..e]| == e;
    Text.AtBack(x[..e], x[e..], END_MARKER, 0);
    Text.AtBack(front, x[e..], END_MARKER, 0);
  }

  lemma StartIsThere(x: string)
    requires Spliceable(x)
    ensures var s := StartIdx(x); 0 <= s && s + |START_MARKER| <= |x| && x[s..s + |START_MARKER|] == START_MARKER
  {
    hide START_MARKER;
    Text.IndexIsFirst(x, START_MARKER);
    var s := StartIdx(x);
    assert forall k :: 0 <= k < |START_MARKER| ==> START_MARKER[k] == x[s + k];
  }

  /** The first example heading of the updated text is the one that was kept, unless the section writes an earlier one;
      in either case it comes after the skill heading. */
  lemma ExampleHeading(x: string, config: Config)
    requires Spliceable(x)
    ensures var u := Updated(x, config);
            && Text.Contains(u, END_MARKER)
            && StartIdx(x) < EndIdx(u) <= |Front(x, config)|
            && (EndIdx(u) == |Front(x, config)| <==> !Text.Contains(SectionText(config.skills), END_MARKER))
  {
    hide Text.Index, Text.At, START_MARKER, END_MARKER, SectionText, Front, Updated, Spliceable;
    UpdateSplits(x, config);
    var u, front, tail, n := Updated(x, config), Front(x, config), x[EndIdx(x)..], StartIdx(x) + |START_MARKER|;
    MarkersAreOneLine();
    ExampleIsKept(x, front);
    FirstInFront(u, front, tail, END_MARKER);
    Text.IndexIsFirst(u, END_MARKER);
    Text.IndexIsFirst(front, END_MARKER);
    FrontHoldsEnd(x, config);
    NoExampleInHead(x, u, n);
  }

  lemma NoExampleInHead(x: string, u: string, n: nat)
    requires Spliceable(x) && n <= EndIdx(x) <= |x| && n <= |u| && u[..n] == x[..n]
    ensures forall i :: Text.At(u, END_MARKER, i) ==> n < i + |END_MARKER|
  {
    hide Text.Index, Text.At, END_MARKER, Spliceable;
    NoExampleBefore(x, n);
    assert u == u[..n] + u[n..];
    forall i ensures Text.At(u, END_MARKER, i) ==> n < i + |END_MARKER| {
      if i + |END_MARKER| <= n { Text.AtFront(u[..n], u[n..], END_MARKER, i); }
    }
  }

  /** An occurrence of a heading is not split by a line break before it. */
  lemma FirstInFront(u: string, front: string, tail: string, p: string)
    requires u == front + tail && |front| > 0 && front[|front| - 1] == '\n' && p != "" && '\n' !in p
    ensures forall i :: Text.At(u, p, i) && i < |front| ==> Text.At(front, p, i)
    ensures forall i :: Text.At(front, p, i) ==> Text.At(u, p, i) && i < |front|
  {
    hide Text.Index, Text.At;
    Text.AtBounds(front, p);
    forall i ensures Text.At(u, p, i) && i < |front| ==> i + |p| <= |front| {
      Text.AtAvoids(u, p, i, |front| - 1);
    }
    forall i ensures i + |p| <= |front| ==> (Text.At(u, p, i) <==> Text.At(front, p, i)) {
      if i + |p| <= |front| { Text.AtFront(front, tail, p, i); }
    }
  }

  lemma FrontHoldsEnd(x: string, config: Config)
    requires Spliceable(x)
    ensures Text.Contains(Front(x, config), END_MARKER) <==> Text.Contains(SectionText(config.skills), END_MARKER)
  {
    hide Text.Index, Text.At, START_MARKER, END_MARKER, SkillTexts, Text.Contains, Updated, Spliceable, Front;
    UpdateSplits(x, config);
    var n := StartIdx(x) + |START_MARKER|;
    NoExampleBefore(x, n);
    Text.IndexIsFirst(x[..n], END_MARKER);
    HoldsAfterHead(x[..n], SkillTexts(config.skills));
    EndNotInStart();
    HoldsAfterHead(START_MARKER, SkillTexts(config.skills));
    assert SectionText(config.skills) == START_MARKER + ['\n'] + ("\n" + SkillTexts(config.skills));
  }

  lemma HoldsAfterHead(head: string, texts: string)
    requires !Text.Contains(head, END_MARKER)
    ensures Text.Contains(head + ['\n'] + ("\n" + texts), END_MARKER) <==> Text.Contains("\n" + texts, END_MARKER)
    ensures Text.Contains(head + ['\n'] + ("\n" + texts + "\n\n"), END_MARKER) <==> Text.Contains("\n" + texts, END_MARKER)
  {
    hide END_MARKER, Text.Contains;
    MarkersDoNotMix();
    Text.ContainsAcross(head, '\n', "\n" + texts, END_MARKER);
    Text.ContainsAcross(head, '\n', "\n" + texts + "\n\n", END_MARKER);
    Text.ContainsStops("\n" + texts, "\n\n", END_MARKER);
  }

  lemma EndNotInStart()
    ensures !Text.Contains(START_MARKER, END_MARKER)
  {
    hide Text.Index;
    assert END_MARKER[|END_MARKER| - 1] == '例';
    assert '例' !in START_MARKER;
    Text.ContainsStops("", START_MARKER, END_MARKER);
    assert "" + START_MARKER == START_MARKER;
    Text.IndexIsFirst("", END_MARKER);
  }

  /** The update keeps the text before the skill heading and the text from the example heading on; the skill heading
      stays the first one, and there is an example heading after it. */
  lemma UpdateKeepsSurroundings(x: string, config: Config)
    requires Spliceable(x)
    ensures var s, e, u := StartIdx(x), EndIdx(x), Updated(x, config);
            && StartIdx(u) == s
            && u[..s] == x[..s]
            && |u| >= |x| - e && u[|u| - (|x| - e)..] == x[e..]
            && Spliceable(u)
  {
    hide Text.Index, Text.At, START_MARKER, END_MARKER, SectionText, Updated, Front;
    UpdateSplits(x, config);
    ExampleHeading(x, config);
    HeadingStays(x, Updated(x, config));
    var s, n := StartIdx(x), StartIdx(x) + |START_MARKER|;
    assert Updated(x, config)[..s] == Updated(x, config)[..n][..s] && x[..n][..s] == x[..s];
  }

  /** Updating again with the same skills changes nothing exactly when the section does not write the example heading;
      otherwise the text grows. */
  lemma UpdateAgainUnchangedIff(x: string, config: Config)
    requires Spliceable(x)
    ensures var u := Updated(x, config);
            && (Updated(u, config) == u <==> !Text.Contains(SectionText(config.skills), END_MARKER))
            && |Updated(u, config)| >= |u|
  {
    hide Text.Index, Text.At, START_MARKER, END_MARKER, SkillTexts, SectionText;
    UpdateSplits(x, config);
    UpdateKeepsSurroundings(x, config);
    ExampleHeading(x, config);
    var u := Updated(x, config);
    assert Front(u, config) == Front(x, config);
    assert Updated(u, config) == Front(u, config) + u[EndIdx(u)..];
    assert u == Front(x, config) + u[|Front(x, config)|..];
  }

  /** From any text at all, a third update in a row changes nothing, unless the section writes the example heading and
      the file is one that the update splices. */
  lemma ThirdUpdateUnchangedIff(x: string, config: Config)
    ensures var twice := Updated(Updated(x, config), config);
            Updated(twice, config) == twice
            <==> (Text.Contains(SectionText(config.skills), END_MARKER) ==> !Spliceable(x) && !Spliceable(Generated(config)))
  {
    hide Generated, SectionText;
    var once := Updated(x, config);
    if Spliceable(x) {
      UpdateKeepsSurroundings(x, config);
      UpdateAgainUnchangedIff(once, config);
    } else if Spliceable(once) {
      UpdateAgainUnchangedIff(once, config);
    }
  }

  // ---------------------------------------------------------------------------------------------
  // When the section writes the example heading

  /** A description, a parameter's name or a parameter's type that holds the heading, or a name that holds it or
      completes it after the section's own "### ". */
  ghost predicate WritesHeading(skill: SkillInfo) {
    || Text.StartsWith(skill.name, "操作示例")
    || Text.Contains(skill.name, END_MARKER)
    || Text.Contains(skill.description, END_MARKER)
    || exists j :: 0 <= j < |skill.parameters| && ParamWritesHeading(skill.parameters[j])
  }

  predicate ParamWritesHeading(p: Param) {
    Text.Contains(p.name, END_MARKER) || Text.Contains(p.kind, END_MARKER)
  }

  lemma ParamLineHolds(p: Param)
    ensures Text.Contains(ParamLine(p), END_MARKER) <==> ParamWritesHeading(p)
  {
    hide Text.Contains;
    var kind := p.kind + "]" + (if p.required then "(必填)" else "") + "\n";
    var name := p.name + " ";
    assert ParamLine(p) == ("- " + name) + ['['] + kind;
    Text.ContainsAcross("- " + name, '[', kind, END_MARKER);
    Text.ContainsSkips("- ", name, END_MARKER);
    Text.ContainsStops(p.name, " ", END_MARKER);
    assert kind == p.kind + ("]" + (if p.required then "(必填)" else "") + "\n");
    Text.ContainsStops(p.kind, "]" + (if p.required then "(必填)" else "") + "\n", END_MARKER);
  }

  ghost predicate Ended(s: string) {
    s == "" || s[|s| - 1] == '\n'
  }

  /** The heading does not stretch over a line break. */
  lemma LinesHold(above: string, below: string)
    requires Ended(above)
    ensures Text.Contains(above + below, END_MARKER) <==> Text.Contains(above, END_MARKER) || Text.Contains(below, END_MARKER)
  {
    hide Text.Contains, END_MARKER;
    MarkersDoNotMix();
    if above == "" {
      EmptyHoldsNothing();
      assert above + below == below;
    } else {
      var line := above[..|above| - 1];
      assert above == line + "\n" && above + below == line + ['\n'] + below;
      Text.ContainsAcross(line, '\n', below, END_MARKER);
      Text.ContainsStops(line, "\n", END_MARKER);
    }
  }

  lemma EmptyHoldsNothing()
    ensures !Text.Contains("", END_MARKER)
  {
    Text.IndexIsFirst("", END_MARKER);
  }

  lemma LineIsEnded(p: Param)
    ensures Ended(ParamLine(p)) && ParamLine(p) != ""
  {
  }

  lemma {:induction false} ParamLinesHold(ps: seq<Param>)
    ensures Ended(ParamLines(ps))
    ensures Text.Contains(ParamLines(ps), END_MARKER) <==> exists j :: 0 <= j < |ps| && ParamWritesHeading(ps[j])
  {
    hide Text.Contains, ParamWritesHeading, END_MARKER, ParamLine;
    if ps == [] {
      EmptyHoldsNothing();
    } else {
      var n := |ps| - 1;
      ParamLinesHold(ps[..n]);
      ParamLineHolds(ps[n]);
      LineIsEnded(ps[n]);
      LinesHold(ParamLines(ps[..n]), ParamLine(ps[n]));
      assert forall j :: 0 <= j < n ==> ps[..n][j] == ps[j];
    }
  }

  lemma SkillTextHolds(skill: SkillInfo)
    ensures Ended(SkillText(skill))
    ensures Text.Contains(SkillText(skill), END_MARKER) <==> WritesHeading(skill)
  {
    hide Text.Contains, ParamWritesHeading, END_MARKER, ParamLines;
    ParamLinesHold(skill.parameters);
    SkillHeadHolds(skill);
    if skill.parameters == [] {
      assert SkillText(skill) == SkillHead(skill);
    } else {
      var lines := ParamLines(skill.parameters) + "\n";
      assert SkillText(skill) == SkillHead(skill) + ("参数:\n" + lines);
      LinesHold(SkillHead(skill), "参数:\n" + lines);
      MarkersDoNotMix();
      PlainHolds();
      Text.ContainsSkips("参数:\n", lines, END_MARKER);
      Text.ContainsStops(ParamLines(skill.parameters), "\n", END_MARKER);
    }
  }

  lemma PlainHolds()
    ensures END_MARKER[0] == '#' && '#' !in "参数:\n"
  {
  }

  lemma SkillHeadHolds(skill: SkillInfo)
    ensures Ended(SkillHead(skill))
    ensures Text.Contains(SkillHead(skill), END_MARKER)
      <==> || Text.StartsWith(skill.name, "操作示例")
           || Text.Contains(skill.name, END_MARKER)
           || Text.Contains(skill.description, END_MARKER)
  {
    hide Text.Contains, END_MARKER, Text.StartsWith;
    MarkersDoNotMix();
    var title := "### " + skill.name;
    assert SkillHead(skill) == title + ['\n'] + (skill.description + "\n\n");
    Text.ContainsAcross(title, '\n', skill.description + "\n\n", END_MARKER);
    Text.ContainsStops(skill.description, "\n\n", END_MARKER);
    TitleHolds(skill.name);
  }

  /** The last two marks of "### " and a name that begins with the heading's words are the heading. */
  lemma TitleHolds(name: string)
    ensures Text.Contains("### " + name, END_MARKER)
      <==> Text.StartsWith(name, "操作示例") || Text.Contains(name, END_MARKER)
  {
    hide Text.Contains, Text.Index;
    var title := "### " + name;
    Text.IndexIsFirst(title, END_MARKER);
    Text.IndexIsFirst(name, END_MARKER);
    assert END_MARKER == "## " + "操作示例";
    forall i ensures Text.At(name, END_MARKER, i) <==> i >= 0 && Text.At(title, END_MARKER, 4 + i) {
      if i >= 0 { Text.AtBack("### ", name, END_MARKER, i); }
    }
    forall j | j >= 4 ensures Text.At(title, END_MARKER, j) <==> Text.At(name, END_MARKER, j - 4) {
      Text.AtBack("### ", name, END_MARKER, j - 4);
    }
    assert title[0] == '#' && title[1] == '#' && title[2] == '#' && title[3] == ' ';
    assert !Text.At(title, END_MARKER, 0) by { assert END_MARKER[2] != title[0 + 2]; }
    assert !Text.At(title, END_MARKER, 2) by { assert END_MARKER[1] != title[2 + 1]; }
    assert !Text.At(title, END_MARKER, 3) by { assert END_MARKER[0] != title[3 + 0]; }
    assert Text.At(title, END_MARKER, 1) <==> Text.StartsWith(name, "操作示例") by {
      hide END_MARKER;
      Text.AtBack("#", "## " + name, END_MARKER, 0);
      assert title == "#" + ("## " + name);
      SameWords(name, "操作示例");
    }
  }

  lemma SameWords(name: string, words: string)
    ensures Text.At("## " + name, "## " + words, 0) <==> Text.StartsWith(name, words)
  {
    Text.AtBack("## ", name, words, 0);
    Text.AtIsStart(name, words, 0);
    assert name[0..] == name;
    var x, p := "## " + name, "## " + words;
    if Text.At(x, p, 0) {
      forall k | 0 <= k < |words| ensures words[k] == x[3 + 0 + k] { assert words[k] == p[3 + k]; }
    }
    if Text.At(x, words, 3) {
      forall k | 0 <= k < |p| ensures p[k] == x[0 + k] {
        if k >= 3 { assert p[k] == words[k - 3]; }
      }
    }
  }

  lemma {:induction false} SkillTextsHold(skills: seq<SkillInfo>)
    ensures Text.Contains(SkillTexts(skills), END_MARKER) <==> exists i :: 0 <= i < |skills| && WritesHeading(skills[i])
    ensures Ended(SkillTexts(skills))
  {
    hide Text.Contains, WritesHeading, END_MARKER, SkillText;
    if skills == [] {
      EmptyHoldsNothing();
    } else {
      var n := |skills| - 1;
      SkillTextsHold(skills[..n]);
      SkillTextHolds(skills[n]);
      LinesHold(SkillTexts(skills[..n]), SkillText(skills[n]));
      assert forall j :: 0 <= j < n ==> skills[..n][j] == skills[j];
    }
  }

  /** The section writes the example heading exactly when one of the skills does. */
  lemma SectionHoldsHeadingIff(skills: seq<SkillInfo>)
    ensures Text.Contains(SectionText(skills), END_MARKER) <==> exists i :: 0 <= i < |skills| && WritesHeading(skills[i])
  {
    hide Text.Contains, WritesHeading, END_MARKER, START_MARKER, SkillTexts;
    SkillTextsHold(skills);
    MarkersDoNotMix();
    EndNotInStart();
    assert SectionText(skills) == (START_MARKER + "\n\n") + SkillTexts(skills);
    LinesHold(START_MARKER + "\n\n", SkillTexts(skills));
    Text.ContainsStops(START_MARKER, "\n\n", END_MARKER);
  }

  lemma IndexAfterLines(front: string, tail: string, p: string)
    requires front != "" && Ended(front) && p != "" && '\n' !in p && !Text.Contains(front, p)
    ensures Text.Index(front + p + tail, p) == |front|
  {
    hide Text.Index, Text.At;
    var u := front + p + tail;
    assert u == front + (p + tail);
    FirstInFront(u, front, p + tail, p);
    Text.IndexIsFirst(front, p);
    StandsInFront(p, tail);
    Text.AtBack(front, p + tail, p, 0);
    Text.FirstIsIndex(u, p, |front|);
  }

  lemma StandsInFront(p: string, tail: string)
    ensures Text.At(p + tail, p, 0)
  {
  }

  lemma MarkersAreOneLine()
    ensures '\n' !in START_MARKER && '\n' !in END_MARKER && START_MARKER != "" && END_MARKER != ""
  {
  }

  lemma HeaderIsEnded(config: Config)
    ensures Header(config) != "" && Ended(Header(config))
  {
  }

  /** A generated file is spliced by the next update, which adds two line breaks before the examples; the one after
      that, as ThirdUpdateUnchangedIff says, changes nothing. */
  lemma FirstUpdateOfGenerated(config: Config)
    requires !Text.Contains(Header(config), START_MARKER) && !Text.Contains(Header(config), END_MARKER)
    requires forall i :: 0 <= i < |config.skills| ==> !WritesHeading(config.skills[i])
    ensures Updated(Generated(config), config) == Header(config) + SectionText(config.skills) + "\n\n" + Examples()
  {
    hide Text.Contains, WritesHeading, END_MARKER, START_MARKER, SkillTexts, Header, Text.Index, Examples;
    var head, texts := Header(config), SkillTexts(config.skills);
    ExamplesStart();
    var section, last := SectionText(config.skills), Examples()[|END_MARKER|..];
    MarkersAreOneLine();
    HeaderIsEnded(config);
    SectionHoldsHeadingIff(config.skills);
    SkillTextsHold(config.skills);
    LinesHold(head, section);
    IndexAfterLines(head, "\n\n" + texts + Examples(), START_MARKER);
    IndexAfterLines(head + section, last, END_MARKER);
    var g := Generated(config);
    assert g == head + START_MARKER + ("\n\n" + texts + Examples());
    assert g == head + section + END_MARKER + last;
    FoundIsContained(g, START_MARKER);
    assert g[..|head|] == head && g[|head + section|..] == Examples();
  }

  lemma FoundIsContained(s: string, p: string)
    ensures Text.Index(s, p) >= 0 ==> Text.Contains(s, p)
  {
  }

  lemma ExamplesStart()
    ensures |END_MARKER| <= |Examples()| && Examples() == END_MARKER + Examples()[|END_MARKER|..]
  {
  }
}
