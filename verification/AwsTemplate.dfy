/**
 `renderAwsTemplate` (src/cli-aws-deploy.ts): the packaged template carries one marker line
 per application function, which becomes a deployment-preference block once the function's
 alias exists and disappears otherwise.
 */
module AwsTemplate {
  import opened Wrappers
  import opened MarkerRewrite

  datatype Deployment = Deployment(aliasLogicalId: string, alarmLogicalId: string, conditional: bool)

  const APPLICATION_LAMBDA_DEPLOYMENTS: seq<Deployment> := [
    Deployment("ApiFunctionAliaslive", "ApiFunctionAliasErrorAlarm", false),
    Deployment("WorkerFunctionAliaslive", "WorkerFunctionAliasErrorAlarm", false),
    Deployment("DispatcherFunctionAliaslive", "DispatcherFunctionAliasErrorAlarm", false),
    Deployment("SesEventsFunctionAliaslive", "SesEventsFunctionAliasErrorAlarm", false),
    Deployment("InboundFunctionAliaslive", "InboundFunctionAliasErrorAlarm", true)]

  const TAG: string := "HAYASEND_GRADUAL_DEPLOYMENT"

  function MarkerName(d: Deployment): string {
    if d.conditional then TAG + "_CONDITIONAL" else TAG
  }

  function Head(d: Deployment): string {
    "      # " + MarkerName(d) + ": "
  }

  function Marker(d: Deployment): string {
    Head(d) + d.alarmLogicalId + "\n"
  }

  const FIRST_LINE: string := "      DeploymentPreference:"
  const TYPE_LINE: string := "        Type: !Ref DeploymentPreferenceType\n"
  const ALARMS_LINE: string := "        Alarms:\n"
  const ALARM_ITEM: string := "          - !Ref "
  const LAST_LINE: string := "        PassthroughCondition: true\n"

  function Preference(d: Deployment): string {
    FIRST_LINE
    + ("\n" + (TYPE_LINE + ALARMS_LINE + ALARM_ITEM) + d.alarmLogicalId + "\n"
       + if d.conditional then LAST_LINE else "")
  }

  /** The marker and the block that takes its place, line by line. */
  lemma TextsOf(d: Deployment)
    ensures Marker(d)
         == "      # " + ("HAYASEND_GRADUAL_DEPLOYMENT" + if d.conditional then "_CONDITIONAL" else "")
            + ": " + d.alarmLogicalId + "\n"
    ensures Preference(d)
         == "      DeploymentPreference:" + "\n"
            + "        Type: !Ref DeploymentPreferenceType\n"
            + "        Alarms:\n"
            + "          - !Ref " + d.alarmLogicalId + "\n"
            + (if d.conditional then "        PassthroughCondition: true\n" else "")
  {
    var name := if d.conditional then "_CONDITIONAL" else "";
    assert MarkerName(d) == TAG + name;
    BlockLines(FIRST_LINE, TYPE_LINE, ALARMS_LINE, ALARM_ITEM, d.alarmLogicalId,
               if d.conditional then LAST_LINE else "");
  }

  lemma BlockLines(first: string, second: string, third: string, item: string, alarm: string, last: string)
    ensures first + ("\n" + (second + third + item) + alarm + "\n" + last)
         == first + "\n" + second + third + item + alarm + "\n" + last
  {
  }

  function EditOf(d: Deployment, aliases: set<string>): Edit {
    Edit(Marker(d), if d.aliasLogicalId in aliases then Preference(d) else "")
  }

  function EditsOf(deployments: seq<Deployment>, aliases: set<string>): seq<Edit> {
    seq(|deployments|, i requires 0 <= i < |deployments| => EditOf(deployments[i], aliases))
  }

  /** A name that keeps its marker one comment line. */
  predicate TidyName(name: string) {
    forall k :: 0 <= k < |name| ==> name[k] != '\n' && name[k] != '#' && name[k] != ':'
  }

  predicate Tidy(deployments: seq<Deployment>) {
    && (forall i :: 0 <= i < |deployments| ==> TidyName(deployments[i].alarmLogicalId))
    && (forall i, j :: 0 <= i < j < |deployments| ==> deployments[i].alarmLogicalId != deployments[j].alarmLogicalId)
  }

  lemma TidyNames()
    ensures TidyName("ApiFunctionAliasErrorAlarm") && TidyName("WorkerFunctionAliasErrorAlarm")
    ensures TidyName("DispatcherFunctionAliasErrorAlarm") && TidyName("SesEventsFunctionAliasErrorAlarm")
    ensures TidyName("InboundFunctionAliasErrorAlarm")
  {
  }

  lemma ApplicationDeploymentsTidy()
    ensures Tidy(APPLICATION_LAMBDA_DEPLOYMENTS)
  {
    var all := APPLICATION_LAMBDA_DEPLOYMENTS;
    TidyNames();
    forall i | 0 <= i < |all|
      ensures TidyName(all[i].alarmLogicalId)
      ensures |all[i].alarmLogicalId| == [26, 29, 33, 32, 30][i]
    {
      assert i == 0 || i == 1 || i == 2 || i == 3 || i == 4;
    }
  }

  lemma NameShape(d: Deployment)
    ensures |MarkerName(d)| >= |TAG| && MarkerName(d)[..|TAG|] == TAG
    ensures forall i :: 0 <= i < |MarkerName(d)| ==> MarkerName(d)[i] != '\n' && MarkerName(d)[i] != '#'
    ensures if d.conditional then |MarkerName(d)| > |TAG| && MarkerName(d)[|TAG|] == '_' else |MarkerName(d)| == |TAG|
  {
    assert forall i :: 0 <= i < |TAG| ==> TAG[i] != '\n' && TAG[i] != '#';
  }

  /** The fixed part of a marker: one hash sign, no line end, the tag at its place. */
  lemma HeadShape(d: Deployment)
    ensures |Head(d)| > 8 && At(Head(d), 8, TAG) && |Head(d)| > 8 + |TAG|
    ensures forall i :: 0 <= i < |Head(d)| ==> Head(d)[i] != '\n' && (Head(d)[i] == '#' <==> i == 6)
    ensures Head(d)[|Head(d)| - 1] == ' ' && Head(d)[8 + |TAG|] == if d.conditional then '_' else ':'
  {
    NameShape(d);
    var h, name := Head(d), MarkerName(d);
    assert h == "      # " + (name + ": ");
    assert forall i :: 8 <= i < 8 + |name| ==> h[i] == name[i - 8];
    assert h[8..8 + |TAG|] == name[..|TAG|];
  }

  lemma LineOf(head: string, name: string, tag: string)
    requires |head| > 8 && At(head, 8, tag) && TidyName(name)
    requires forall i :: 0 <= i < |head| ==> head[i] != '\n' && (head[i] == '#' <==> i == 6)
    ensures LineMarker(head + name + "\n", tag)
  {
    var m := head + name + "\n";
    assert forall i :: 0 <= i < |head| ==> m[i] == head[i];
    assert forall i :: |head| <= i < |m| - 1 ==> m[i] == name[i - |head|];
    assert m[8..8 + |tag|] == head[8..8 + |tag|];
  }

  lemma MarkerShape(d: Deployment)
    requires TidyName(d.alarmLogicalId)
    ensures LineMarker(Marker(d), TAG)
  {
    HeadShape(d);
    LineOf(Head(d), d.alarmLogicalId, TAG);
  }

  lemma SameTail(head: string, a: string, b: string)
    requires head + a + "\n" == head + b + "\n"
    ensures a == b
  {
    var m := head + a + "\n";
    assert m[|head|..|m| - 1] == a && m[|head|..|m| - 1] == b;
  }

  lemma MarkerInjective(d: Deployment, e: Deployment)
    requires Marker(d) == Marker(e)
    ensures d.alarmLogicalId == e.alarmLogicalId
  {
    HeadShape(d);
    HeadShape(e);
    assert Marker(d)[8 + |TAG|] == Head(d)[8 + |TAG|] && Marker(e)[8 + |TAG|] == Head(e)[8 + |TAG|];
    assert d.conditional == e.conditional;
    SameTail(Head(d), d.alarmLogicalId, e.alarmLogicalId);
  }

  lemma EditsValid(deployments: seq<Deployment>, aliases: set<string>)
    requires Tidy(deployments)
    ensures ValidEdits(EditsOf(deployments, aliases), TAG)
  {
    var edits := EditsOf(deployments, aliases);
    forall i | 0 <= i < |edits|
      ensures LineMarker(edits[i].marker, TAG)
    {
      MarkerShape(deployments[i]);
    }
    forall i, j | 0 <= i < j < |edits|
      ensures edits[i].marker != edits[j].marker
    {
      if edits[i].marker == edits[j].marker {
        MarkerInjective(deployments[i], deployments[j]);
      }
    }
  }

  predicate NoHash(s: string) {
    forall i :: 0 <= i < |s| ==> s[i] != '#'
  }

  lemma FirstLine()
    ensures |FIRST_LINE| > 0 && FIRST_LINE[|FIRST_LINE| - 1] == ':' && NoHash(FIRST_LINE)
    ensures forall i :: 0 <= i < |FIRST_LINE| ==> FIRST_LINE[i] != '\n'
  {
  }

  lemma NextLines()
    ensures NoHash(TYPE_LINE + ALARMS_LINE + ALARM_ITEM)
  {
    assert NoHash(TYPE_LINE) && NoHash(ALARMS_LINE) && NoHash(ALARM_ITEM);
    NoHashJoined(TYPE_LINE, ALARMS_LINE, ALARM_ITEM);
  }

  lemma NoHashJoined(a: string, b: string, c: string)
    requires NoHash(a) && NoHash(b) && NoHash(c)
    ensures NoHash(a + b + c)
  {
  }

  lemma LastLine()
    ensures NoHash(LAST_LINE) && |LAST_LINE| > 0 && LAST_LINE[|LAST_LINE| - 1] == '\n'
  {
  }

  /** A deployment preference cannot put a marker together with the text around it. */
  lemma PreferenceFirm(d: Deployment)
    requires TidyName(d.alarmLogicalId)
    ensures Firm(Preference(d), |FIRST_LINE|)
  {
    FirstLine();
    NextLines();
    LastLine();
    FirmParts(FIRST_LINE, TYPE_LINE + ALARMS_LINE + ALARM_ITEM, d.alarmLogicalId,
              if d.conditional then LAST_LINE else "");
  }

  lemma FirmParts(first: string, next: string, name: string, last: string)
    requires |first| > 0 && first[|first| - 1] == ':'
    requires forall i :: 0 <= i < |first| ==> first[i] != '\n'
    requires NoHash(first) && NoHash(next) && NoHash(name) && NoHash(last)
    requires last != "" ==> last[|last| - 1] == '\n'
    ensures Firm(first + ("\n" + next + name + "\n" + last), |first|)
  {
    var b := first + ("\n" + next + name + "\n" + last);
    assert forall i :: 0 <= i < |first| ==> b[i] == first[i];
    assert b[|first|] == '\n';
    assert b[|b| - 1] == if last == "" then '\n' else last[|last| - 1];
  }

  lemma MarkerPlainEnd(d: Deployment)
    requires TidyName(d.alarmLogicalId)
    ensures PlainEnd(Marker(d))
  {
    HeadShape(d);
    var m := Marker(d);
    assert m[|m| - 2]
        == if d.alarmLogicalId == "" then Head(d)[|Head(d)| - 1] else d.alarmLogicalId[|d.alarmLogicalId| - 1];
  }

  /** Once every function but the last one has its alias, no round can put a marker together. */
  lemma EditsFirm(deployments: seq<Deployment>, aliases: set<string>)
    requires Tidy(deployments)
    requires forall i :: 0 <= i < |deployments| - 1 ==> deployments[i].aliasLogicalId in aliases
    ensures FirmEdits(EditsOf(deployments, aliases))
  {
    var edits := EditsOf(deployments, aliases);
    forall i | 0 <= i < |edits|
      ensures PlainEnd(edits[i].marker)
    {
      MarkerPlainEnd(deployments[i]);
    }
    forall i | 0 <= i < |edits| - 1
      ensures IsFirm(edits[i].block)
    {
      PreferenceFirm(deployments[i]);
      assert Firm(edits[i].block, |FIRST_LINE|);
    }
  }

  method RenderAwsTemplate(source: string, gradualAliasLogicalIds: set<string>) returns (rendered: Option<string>)
    ensures var edits := EditsOf(APPLICATION_LAMBDA_DEPLOYMENTS, gradualAliasLogicalIds);
      && ValidEdits(edits, TAG)
      && rendered == Rewrite(source, edits, TAG)
      && (rendered.Some? ==> (rendered.value == OnePass(source, edits) <==> OnceEach(source, edits, TAG)))
      && (rendered.Some? ==> !Contains(rendered.value, TAG))
      && (OnceEach(source, edits, TAG) ==> (rendered.Some? <==> !Contains(OnePass(source, edits), TAG)))
  {
    ApplicationDeploymentsTidy();
    EditsValid(APPLICATION_LAMBDA_DEPLOYMENTS, gradualAliasLogicalIds);
    var edits := EditsOf(APPLICATION_LAMBDA_DEPLOYMENTS, gradualAliasLogicalIds);
    rendered := RewriteMarkers(source, edits, TAG);
    if OnceEach(source, edits, TAG) {
      AcceptedExactly(source, edits, TAG);
    }
    AcceptedIsClean(source, edits, TAG);
    if rendered.Some? {
      OnePassExactly(source, edits, TAG);
    }
  }

  /** The table in another order: the first two functions exchanged. */
  function Exchanged(deployments: seq<Deployment>): seq<Deployment>
    requires |deployments| >= 2
  {
    [deployments[1]] + ([deployments[0]] + deployments[2..])
  }

  lemma ExchangedTidy(deployments: seq<Deployment>)
    requires Tidy(deployments) && |deployments| >= 2
    ensures Tidy(Exchanged(deployments))
  {
    var other := Exchanged(deployments);
    assert forall i :: 2 <= i < |other| ==> other[i] == deployments[i];
  }

  /** A source that nests the marker of the second function around that of the first. */
  function NestedSource(deployments: seq<Deployment>): string
    requires |deployments| >= 2
  {
    Nested(Marker(deployments[0]), Marker(deployments[1]), Markers(EditsOf(deployments, {})[2..]))
  }

  lemma ExchangedEdits(deployments: seq<Deployment>)
    requires |deployments| >= 2
    ensures var edits := EditsOf(deployments, {});
      EditsOf(Exchanged(deployments), {}) == [edits[1]] + ([edits[0]] + edits[2..]) && AllRemoved(edits)
  {
    var edits, table := EditsOf(deployments, {}), Exchanged(deployments);
    var other, expected := EditsOf(table, {}), [edits[1]] + ([edits[0]] + edits[2..]);
    forall i | 0 <= i < |other|
      ensures other[i] == expected[i]
    {
      ExchangedAt(deployments, i);
      assert expected[i] == edits[Swapped(i)];
    }
  }

  function Swapped(i: nat): nat {
    if i == 0 then 1 else if i == 1 then 0 else i
  }

  lemma ExchangedAt(deployments: seq<Deployment>, i: nat)
    requires |deployments| >= 2 && i < |deployments|
    ensures Exchanged(deployments)[i] == deployments[Swapped(i)]
  {
  }

  /**
   The order of the rounds matters for every table of functions: before any alias exists, a
   nested source is accepted in the table's order and refused when the first two functions
   are exchanged.
   */
  lemma TableOrderMatters(deployments: seq<Deployment>)
    requires Tidy(deployments) && |deployments| >= 2
    ensures ValidEdits(EditsOf(deployments, {}), TAG) && ValidEdits(EditsOf(Exchanged(deployments), {}), TAG)
    ensures Rewrite(NestedSource(deployments), EditsOf(deployments, {}), TAG) == Some("")
    ensures Rewrite(NestedSource(deployments), EditsOf(Exchanged(deployments), {}), TAG) == None
  {
    var edits := EditsOf(deployments, {});
    EditsValid(deployments, {});
    ExchangedTidy(deployments);
    EditsValid(Exchanged(deployments), {});
    ExchangedEdits(deployments);
    assert edits[0].marker == Marker(deployments[0]) && edits[1].marker == Marker(deployments[1]);
    NestedRefused(edits, EditsOf(Exchanged(deployments), {}), TAG);
  }

  lemma NestedRefused(edits: seq<Edit>, others: seq<Edit>, tag: string)
    requires |edits| >= 2 && others == [edits[1]] + ([edits[0]] + edits[2..]) && tag != "" && edits[1].marker != ""
    requires ValidEdits(edits, tag) && ValidEdits(others, tag) && AllRemoved(edits)
    ensures Rewrite(Nested(edits[0].marker, edits[1].marker, Markers(edits[2..])), edits, tag) == Some("")
    ensures Rewrite(Nested(edits[0].marker, edits[1].marker, Markers(edits[2..])), others, tag) == None
  {
    assert edits == [edits[0]] + ([edits[1]] + edits[2..]);
    OrderMattersAmong(edits[0], edits[1], edits[2..], tag);
  }

  /** The table of the application functions is no exception. */
  lemma ApplicationOrderMatters()
    ensures var all := APPLICATION_LAMBDA_DEPLOYMENTS;
      && ValidEdits(EditsOf(all, {}), TAG) && ValidEdits(EditsOf(Exchanged(all), {}), TAG)
      && Rewrite(NestedSource(all), EditsOf(all, {}), TAG) == Some("")
      && Rewrite(NestedSource(all), EditsOf(Exchanged(all), {}), TAG) == None
  {
    ApplicationDeploymentsTidy();
    TableOrderMatters(APPLICATION_LAMBDA_DEPLOYMENTS);
  }
}
