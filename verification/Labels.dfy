/** The label text "key=value,key=value" and the base labels of a service. */
module Labels {
  import opened Wrappers
  import opened Text

  type LabelMap = map<string, string>

  /** What one piece between commas adds: nothing unless it has exactly one '='. */
  function WithLabel(m: LabelMap, entry: string): LabelMap {
    var kv := Split(entry, '=');
    if |kv| == 2 then m[kv[0] := kv[1]] else m
  }

  /** The pieces are taken from left to right, later ones overriding. */
  function ParsePieces(pieces: seq<string>): LabelMap {
    if pieces == [] then map[] else WithLabel(ParsePieces(pieces[..|pieces| - 1]), pieces[|pieces| - 1])
  }

  function Parse(labels: string): LabelMap {
    if labels == "" then map[] else ParsePieces(Split(labels, ','))
  }

  method LablesToMap(labels: string) returns (m: LabelMap)
    ensures m == Parse(labels)
  {
    if labels == "" {
      return map[];
    }
    m := map[];
    var pieces := Split(labels, ',');
    for i := 0 to |pieces|
      invariant m == ParsePieces(pieces[..i])
    {
      assert pieces[..i + 1][..i] == pieces[..i];
      var kv := Split(pieces[i], '=');
      if |kv| == 2 {
        m := m[kv[0] := kv[1]];
      }
    }
    assert pieces[..|pieces|] == pieces;
  }

  // ---------- encoding in any enumeration order ----------

  ghost predicate Enumerates(keys: seq<string>, domain: set<string>) {
    && (forall k :: k in keys <==> k in domain)
    && forall i, j :: 0 <= i < j < |keys| ==> keys[i] != keys[j]
  }

  function LabelTexts(m: LabelMap, keys: seq<string>): seq<string>
    requires forall k :: k in keys ==> k in m
  {
    seq(|keys|, i requires 0 <= i < |keys| => keys[i] + "=" + m[keys[i]])
  }

  /** s lists the entries of m in some order. */
  ghost predicate IsEncoding(m: LabelMap, s: string) {
    exists keys :: Enumerates(keys, m.Keys) && s == Join(LabelTexts(m, keys), ',')
  }

  method MapToLables(m: LabelMap) returns (s: string)
    ensures IsEncoding(m, s)
  {
    if |m| == 0 {
      assert m == map[] && Enumerates([], m.Keys) && Join(LabelTexts(m, []), ',') == "";
      return "";
    }
    var labels: seq<string> := [];
    var todo := m.Keys;
    ghost var done: seq<string> := [];
    while todo != {}
      invariant todo <= m.Keys
      invariant Enumerates(done, m.Keys - todo)
      invariant labels == LabelTexts(m, done)
      decreases |todo|
    {
      var k :| k in todo;
      labels := labels + [k + "=" + m[k]];
      done := done + [k];
      todo := todo - {k};
    }
    assert m.Keys - todo == m.Keys;
    s := Join(labels, ',');
  }

  // ---------- round trip ----------

  predicate CleanText(s: string) {
    Free(s, ',') && Free(s, '=')
  }

  predicate Clean(m: LabelMap) {
    forall k :: k in m ==> CleanText(k) && CleanText(m[k])
  }

  lemma {:induction false} PieceCharacters(s: string, sep: char, i: nat)
    requires i < |Split(s, sep)|
    ensures forall c :: c in Split(s, sep)[i] ==> c in s
  {
    if s != "" {
      var rest := Split(s[1..], sep);
      if s[0] == sep {
        if i > 0 {
          PieceCharacters(s[1..], sep, i - 1);
        }
      } else {
        PieceCharacters(s[1..], sep, i);
        assert i == 0 ==> Split(s, sep)[i] == [s[0]] + rest[0];
        assert i > 0 ==> Split(s, sep)[i] == rest[i];
      }
    }
  }

  lemma {:induction false} ParsePiecesClean(pieces: seq<string>)
    requires AllFree(pieces, ',')
    ensures Clean(ParsePieces(pieces))
  {
    if pieces != [] {
      ParsePiecesClean(pieces[..|pieces| - 1]);
      var entry := pieces[|pieces| - 1];
      var kv := Split(entry, '=');
      if |kv| == 2 {
        PieceCharacters(entry, '=', 0);
        PieceCharacters(entry, '=', 1);
        JoinSplit(entry, '=');
        assert CleanText(kv[0]) && CleanText(kv[1]);
      }
    }
  }

  /** Whatever the text, no parsed key or value holds ',' or '='. */
  lemma {:induction false} ParseIsClean(labels: string)
    ensures Clean(Parse(labels))
  {
    JoinSplit(labels, ',');
    if labels != "" {
      ParsePiecesClean(Split(labels, ','));
    }
  }

  lemma {:induction false} CleanLabelSplits(k: string, v: string)
    requires CleanText(k) && CleanText(v)
    ensures Split(k + "=" + v, '=') == [k, v] && Free(k + "=" + v, ',')
  {
    SplitPrefix(k, v, '=');
    SplitPrefix(v, "", '=');
  }

  lemma {:induction false} ParseLabelTexts(m: LabelMap, keys: seq<string>)
    requires Clean(m) && forall k :: k in keys ==> k in m
    ensures AllFree(LabelTexts(m, keys), ',')
    ensures ParsePieces(LabelTexts(m, keys)) == map k | k in keys :: m[k]
  {
    if keys != [] {
      var n := |keys| - 1;
      var texts := LabelTexts(m, keys);
      assert texts[..n] == LabelTexts(m, keys[..n]);
      ParseLabelTexts(m, keys[..n]);
      CleanLabelSplits(keys[n], m[keys[n]]);
      assert keys == keys[..n] + [keys[n]];
      forall i | 0 <= i < |texts| ensures Free(texts[i], ',') {
        if i < n {
          assert texts[i] == texts[..n][i];
        }
      }
    }
  }

  lemma {:induction false} CleanMapParses(m: LabelMap, s: string)
    requires IsEncoding(m, s) && Clean(m)
    ensures Parse(s) == m
  {
    var keys :| Enumerates(keys, m.Keys) && s == Join(LabelTexts(m, keys), ',');
    ParseLabelTexts(m, keys);
    if keys == [] {
      assert m.Keys == {};
    } else {
      SplitJoin(LabelTexts(m, keys), ',');
      assert LabelTexts(m, keys)[0][|keys[0]|] == '=';
      JoinNonEmpty(LabelTexts(m, keys), ',');
    }
  }

  /** Encoding in any order and parsing gives the map back exactly when no key or value holds ',' or '='. */
  lemma {:induction false} LabelsRoundTrip(m: LabelMap, s: string)
    requires IsEncoding(m, s)
    ensures Parse(s) == m <==> Clean(m)
  {
    if Clean(m) {
      CleanMapParses(m, s);
    } else {
      ParseIsClean(s);
    }
  }

  lemma {:induction false} JoinNonEmpty(pieces: seq<string>, sep: char)
    requires pieces != [] && pieces[0] != ""
    ensures Join(pieces, sep) != ""
  {
  }

  // ---------- base labels of a service ----------

  datatype Owner = Owner(id: int, name: string)

  const WORKSPACE_NAME := "workspace"
  const WORKSPACE_ID := "workspace_id"
  const PROJECT_NAME := "project"
  const PROJECT_ID := "project_id"
  const SERVICE_NAME := "service"

  function OwnerLabels(idKey: string, nameKey: string, owner: Option<Owner>): LabelMap {
    if owner.Some? then map[idKey := Itoa(owner.value.id), nameKey := owner.value.name] else map[]
  }

  function BaseLabels(service: string, workspace: Option<Owner>, project: Option<Owner>): LabelMap {
    map[SERVICE_NAME := service]
    + OwnerLabels(WORKSPACE_ID, WORKSPACE_NAME, workspace)
    + OwnerLabels(PROJECT_ID, PROJECT_NAME, project)
  }

  predicate CleanOwner(owner: Option<Owner>) {
    owner.Some? ==> CleanText(owner.value.name)
  }

  predicate CleanNames(service: string, workspace: Option<Owner>, project: Option<Owner>) {
    CleanText(service) && CleanOwner(workspace) && CleanOwner(project)
  }

  lemma {:induction false} BaseKeys()
    ensures SERVICE_NAME !in {WORKSPACE_NAME, WORKSPACE_ID, PROJECT_NAME, PROJECT_ID}
    ensures WORKSPACE_NAME !in {WORKSPACE_ID, PROJECT_NAME, PROJECT_ID}
    ensures WORKSPACE_ID !in {PROJECT_NAME, PROJECT_ID} && PROJECT_NAME != PROJECT_ID
    ensures CleanText(SERVICE_NAME) && CleanText(WORKSPACE_NAME) && CleanText(WORKSPACE_ID)
    ensures CleanText(PROJECT_NAME) && CleanText(PROJECT_ID)
  {
  }

  lemma {:induction false} ItoaClean(n: int)
    ensures CleanText(Itoa(n))
  {
  }

  lemma {:induction false} OwnerLabelsClean(idKey: string, nameKey: string, owner: Option<Owner>)
    requires idKey != nameKey && CleanText(idKey) && CleanText(nameKey)
    ensures Clean(OwnerLabels(idKey, nameKey, owner)) <==> CleanOwner(owner)
  {
    if owner.Some? {
      ItoaClean(owner.value.id);
      assert OwnerLabels(idKey, nameKey, owner)[nameKey] == owner.value.name;
    }
  }

  lemma {:induction false} CleanSum(a: LabelMap, b: LabelMap)
    requires a.Keys !! b.Keys
    ensures Clean(a + b) <==> Clean(a) && Clean(b)
  {
  }

  lemma {:induction false} BaseLabelsClean(service: string, workspace: Option<Owner>, project: Option<Owner>)
    ensures Clean(BaseLabels(service, workspace, project)) <==> CleanNames(service, workspace, project)
  {
    BaseKeys();
    var s: LabelMap := map[SERVICE_NAME := service];
    var w := OwnerLabels(WORKSPACE_ID, WORKSPACE_NAME, workspace);
    var p := OwnerLabels(PROJECT_ID, PROJECT_NAME, project);
    OwnerLabelsClean(WORKSPACE_ID, WORKSPACE_NAME, workspace);
    OwnerLabelsClean(PROJECT_ID, PROJECT_NAME, project);
    assert Clean(s) <==> CleanText(service) by {
      assert s[SERVICE_NAME] == service;
    }
    CleanSum(s, w);
    CleanSum(s + w, p);
  }

  /** Overriding a clean map gives a clean map exactly when the overriding entries are clean. */
  lemma {:induction false} CleanOverride(m: LabelMap, base: LabelMap)
    requires Clean(m)
    ensures Clean(m + base) <==> Clean(base)
  {
  }

  lemma {:induction false} BaseLast(parsed: LabelMap, service: string, workspace: Option<Owner>, project: Option<Owner>)
    ensures parsed[SERVICE_NAME := service] + OwnerLabels(WORKSPACE_ID, WORKSPACE_NAME, workspace) + OwnerLabels(PROJECT_ID, PROJECT_NAME, project)
            == parsed + BaseLabels(service, workspace, project)
  {
  }

  /** Writing the two labels of an owner, if there is one, one after the other. */
  method AddOwner(m: LabelMap, idKey: string, nameKey: string, owner: Option<Owner>) returns (r: LabelMap)
    ensures r == m + OwnerLabels(idKey, nameKey, owner)
  {
    r := m;
    if owner.Some? {
      r := r[idKey := Itoa(owner.value.id)];
      r := r[nameKey := owner.value.name];
    }
  }

  /** With clean names a second call in the same context shows the same labels as the first. */
  lemma {:induction false} BaseLabelsRest(first: string, second: string, third: string, service: string, workspace: Option<Owner>, project: Option<Owner>)
    requires CleanNames(service, workspace, project)
    requires IsEncoding(Parse(first) + BaseLabels(service, workspace, project), second)
    requires IsEncoding(Parse(second) + BaseLabels(service, workspace, project), third)
    ensures Parse(third) == Parse(second)
  {
    var base := BaseLabels(service, workspace, project);
    BaseLabelsClean(service, workspace, project);
    ParseIsClean(first);
    ParseIsClean(second);
    CleanOverride(Parse(first), base);
    CleanOverride(Parse(second), base);
    LabelsRoundTrip(Parse(first) + base, second);
    LabelsRoundTrip(Parse(second) + base, third);
    assert Parse(first) + base + base == Parse(first) + base;
  }

  class Service {
    var name: string
    var lables: string
    var workspaceId: int
    var projectId: int

    /**
     The base labels of the context win, every other parsed entry stays; this is what a parse
     of the new text shows exactly when the three names hold neither ',' nor '='.
     */
    method SetBaseLables(workspace: Option<Owner>, project: Option<Owner>)
      modifies this`lables, this`workspaceId, this`projectId
      ensures IsEncoding(Parse(old(lables)) + BaseLabels(name, workspace, project), lables)
      ensures Parse(lables) == Parse(old(lables)) + BaseLabels(name, workspace, project)
              <==> CleanNames(name, workspace, project)
      ensures workspaceId == if workspace.Some? then workspace.value.id else old(workspaceId)
      ensures projectId == if project.Some? then project.value.id else old(projectId)
    {
      ghost var parsed := Parse(lables);
      ghost var base := BaseLabels(name, workspace, project);
      var serviceLables := LablesToMap(lables);
      serviceLables := serviceLables[SERVICE_NAME := name];
      serviceLables := AddOwner(serviceLables, WORKSPACE_ID, WORKSPACE_NAME, workspace);
      serviceLables := AddOwner(serviceLables, PROJECT_ID, PROJECT_NAME, project);
      workspaceId := if workspace.Some? then workspace.value.id else workspaceId;
      projectId := if project.Some? then project.value.id else projectId;
      BaseLast(parsed, name, workspace, project);
      assert serviceLables == parsed + base;
      ParseIsClean(lables);
      lables := MapToLables(serviceLables);
      LabelsRoundTrip(parsed + base, lables);
      BaseLabelsClean(name, workspace, project);
      CleanOverride(parsed, base);
    }
  }
}
