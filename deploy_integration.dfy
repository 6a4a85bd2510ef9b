/**
 * The text rewrites of the deployment integration script: the `.env` update that
 * points the backend at the bridge API, the backup file name, the guarded import that
 * `modify_agent_service` adds to the agent service, and its three method swaps.
 * File contents are values: whether the `.env` file exists and what it holds is the
 * `existing` parameter, and the texts written back are the results.
 */
module DeployIntegration {
  import opened Wrappers
  import opened Strings

  // ---------------------------------------------------------------------------
  // Backup file name

  const BackupSuffix := ".bak"

  /** `backup_file`'s target: the path with ".bak" appended. */
  function BackupPath(path: string): (r: string)
    ensures |r| == |path| + 4 && StartsWith(r, path) && r[|path|..] == BackupSuffix
  {
    path + BackupSuffix
  }

  /** Different files never share a backup. */
  lemma BackupPathInjective(a: string, b: string)
    requires BackupPath(a) == BackupPath(b)
    ensures a == b
  {
    assert a == BackupPath(a)[..|a|];
    assert |a| == |b|;
    assert b == BackupPath(b)[..|b|];
  }

  // ---------------------------------------------------------------------------
  // The .env file

  const UrlKey := "MANUS_BRIDGE_API_URL"
  const UrlPrefix := UrlKey + "="

  /** The setting line for `url`. */
  function UrlLine(url: string): (r: string)
    ensures StartsWith(r, UrlPrefix) && r[|UrlPrefix|..] == url
  {
    UrlPrefix + url
  }

  /** One line of the rewrite: a setting line for the URL is replaced, any other kept. */
  function RewriteLine(line: string, url: string): string {
    if StartsWith(line, UrlPrefix) then UrlLine(url) else line
  }

  /** Every line of the rewrite, in order. */
  function Rewritten(lines: seq<string>, url: string): (r: seq<string>)
    ensures |r| == |lines| && forall k :: 0 <= k < |lines| ==> r[k] == RewriteLine(lines[k], url)
  {
    seq(|lines|, k requires 0 <= k < |lines| => RewriteLine(lines[k], url))
  }

  /**
   * `update_env_file`: the text the `.env` file holds afterwards, given its text before
   * (`None` when it does not exist).
   */
  function EnvText(existing: Option<string>, url: string): (r: string)
    ensures existing.None? ==> r == UrlPrefix + url + "\n"
    ensures existing.Some? && !Contains(existing.value, UrlKey) ==> r == existing.value + "\n" + UrlPrefix + url + "\n"
  {
    match existing
    case None => UrlLine(url) + "\n"
    case Some(content) =>
      if Contains(content, UrlKey) then Join(Rewritten(Split(content, '\n'), url), '\n')
      else content + "\n" + UrlLine(url) + "\n"
  }

  /** The script's procedure, with the line loop it runs. */
  method UpdateEnvFile(existing: Option<string>, url: string) returns (content: string)
    ensures content == EnvText(existing, url)
  {
    if existing.None? {
      return UrlLine(url) + "\n";
    }
    content := existing.value;
    if Contains(content, UrlKey) {
      var lines := Split(content, '\n');
      var newLines: seq<string> := [];
      var i := 0;
      while i < |lines|
        invariant 0 <= i <= |lines|
        invariant newLines == Rewritten(lines[..i], url)
      {
        if StartsWith(lines[i], UrlPrefix) {
          newLines := newLines + [UrlLine(url)];
        } else {
          newLines := newLines + [lines[i]];
        }
        i := i + 1;
      }
      assert lines[..i] == lines;
      content := Join(newLines, '\n');
    } else {
      content := content + "\n" + UrlLine(url) + "\n";
    }
  }

  /** A setting line for the URL mentions the key. */
  lemma PrefixedMentionsKey(line: string)
    requires StartsWith(line, UrlPrefix)
    ensures Contains(line, UrlKey)
  {
    assert line[0..] == line;
    assert line[..|UrlKey|] == UrlPrefix[..|UrlKey|] == UrlKey;
    ContainsAt(line, UrlKey, 0);
  }

  /** The rewritten lines hold no line break when the URL holds none. */
  lemma RewrittenSingleLines(lines: seq<string>, url: string)
    requires '\n' !in url
    requires forall k :: 0 <= k < |lines| ==> '\n' !in lines[k]
    ensures forall k :: 0 <= k < |lines| ==> '\n' !in Rewritten(lines, url)[k]
  {
    assert '\n' !in UrlPrefix;
    assert '\n' !in UrlLine(url);
  }

  /**
   * When the file mentions the key, it keeps its line count and each line is either
   * kept or, where it starts with the setting's prefix, replaced by the new setting.
   */
  lemma EnvTextReplacesLines(content: string, url: string)
    requires Contains(content, UrlKey) && '\n' !in url
    ensures |Split(EnvText(Some(content), url), '\n')| == |Split(content, '\n')|
    ensures forall k :: 0 <= k < |Split(content, '\n')| ==>
      Split(EnvText(Some(content), url), '\n')[k] ==
        (if StartsWith(Split(content, '\n')[k], UrlPrefix) then UrlPrefix + url else Split(content, '\n')[k])
  {
    var lines := Split(content, '\n');
    RewrittenSingleLines(lines, url);
    SplitJoin(Rewritten(lines, url), '\n');
  }

  /** The new setting line is left as it is by a second rewrite and holds no line break. */
  lemma UrlLineFacts(url: string)
    requires '\n' !in url
    ensures '\n' !in UrlLine(url) && RewriteLine(UrlLine(url), url) == UrlLine(url)
    ensures Contains(UrlLine(url), UrlKey) && !StartsWith("", UrlPrefix)
  {
    assert '\n' !in UrlPrefix;
    PrefixedMentionsKey(UrlLine(url));
  }

  /** The one-line file written when there was none is rewritten to itself. */
  lemma EnvSettledWhenCreated(url: string)
    requires '\n' !in url
    ensures EnvText(Some(EnvText(None, url)), url) == EnvText(None, url)
  {
    var u := UrlLine(url);
    var t := EnvText(None, url);
    UrlLineFacts(url);
    assert t == Join([u, ""], '\n');
    SplitJoin([u, ""], '\n');
    ContainsInfix([], u, "\n", UrlKey);
    assert [] + u + "\n" == t;
    assert Rewritten([u, ""], url) == [u, ""];
  }

  /** A file that gained the setting at its end is rewritten to itself. */
  lemma EnvSettledWhenAppended(c: string, url: string)
    requires '\n' !in url && !Contains(c, UrlKey)
    ensures EnvText(Some(EnvText(Some(c), url)), url) == EnvText(Some(c), url)
  {
    var u := UrlLine(url);
    var t := EnvText(Some(c), url);
    var lines := Split(c, '\n');
    var all := lines + [u, ""];
    UrlLineFacts(url);
    JoinSplit(c, '\n');
    JoinAppend(lines, [u, ""], '\n');
    assert Join(all, '\n') == t;
    SplitJoin(all, '\n');
    ContainsInfix(c + "\n", u, "\n", UrlKey);
    forall k | 0 <= k < |lines| ensures !StartsWith(lines[k], UrlPrefix) {
      if StartsWith(lines[k], UrlPrefix) {
        PrefixedMentionsKey(lines[k]);
        SplitPartsOccur(c, '\n', k, UrlKey);
      }
    }
    assert Rewritten(all, url) == all;
  }

  /** A file whose setting lines were rewritten is rewritten to itself. */
  lemma EnvSettledWhenReplaced(c: string, url: string)
    requires '\n' !in url && Contains(c, UrlKey)
    ensures EnvText(Some(EnvText(Some(c), url)), url) == EnvText(Some(c), url)
  {
    var t := EnvText(Some(c), url);
    var lines := Split(c, '\n');
    var r := Rewritten(lines, url);
    UrlLineFacts(url);
    RewrittenSingleLines(lines, url);
    SplitJoin(r, '\n');
    JoinSplit(c, '\n');
    assert '\n' !in UrlKey;
    ContainsJoinedPart(lines, '\n', UrlKey);
    var k :| 0 <= k < |lines| && Contains(lines[k], UrlKey);
    if StartsWith(lines[k], UrlPrefix) {
      PrefixedMentionsKey(r[k]);
    }
    SplitPartsOccur(t, '\n', k, UrlKey);
    assert Rewritten(r, url) == r;
  }

  /** Running the rewrite on its own output changes nothing. */
  lemma EnvTextIdempotent(existing: Option<string>, url: string)
    requires '\n' !in url
    ensures EnvText(Some(EnvText(existing, url)), url) == EnvText(existing, url)
  {
    match existing
    case None => EnvSettledWhenCreated(url);
    case Some(c) =>
      if Contains(c, UrlKey) {
        EnvSettledWhenReplaced(c, url);
      } else {
        EnvSettledWhenAppended(c, url);
      }
  }

  // ---------------------------------------------------------------------------
  // The bridge-client import

  const ClientImport := "from app.services.manus_bridge_client import manus_bridge_client"

  /** The import block the script looks for in the agent service. */
  const ImportSection := "from typing import Any, Dict, Generic, List, Optional, Type, TypeVar, Union\nfrom fastapi.encoders import jsonable_encoder\nfrom pydantic import BaseModel\nfrom sqlalchemy.orm import Session\n\nfrom app.db.base_class import Base\nfrom app.models.models import Agent, AgentStatus"

  /** The same block with the bridge-client import as its last line. */
  const NewImportSection := ImportSection + "\n" + ClientImport

  /** The import step of `modify_agent_service`. */
  function AddImport(content: string): (r: string)
    ensures Contains(content, ClientImport) ==> r == content
  {
    if Contains(content, ClientImport) then content else ReplaceAll(content, ImportSection, NewImportSection)
  }

  /** A text that contains `big` contains everything `big` contains. */
  lemma ContainsTransitive(s: string, big: string, small: string)
    requires Contains(s, big) && Contains(big, small)
    ensures Contains(s, small)
  {
    var i :| 0 <= i <= |s| && StartsWith(s[i..], big);
    ContainsInfix(s[..i], big, s[i + |big|..], small);
    assert s[..i] + big + s[i + |big|..] == s;
  }

  /**
   * The import is added only when it is missing: a text with the import, or without
   * the block it follows, is left as it is; otherwise the result has the import.
   */
  lemma AddImportGuarded(content: string)
    ensures !Contains(content, ImportSection) ==> AddImport(content) == content
    ensures Contains(AddImport(content), ClientImport) <==>
      Contains(content, ClientImport) || Contains(content, ImportSection)
  {
    if !Contains(content, ClientImport) {
      if Contains(content, ImportSection) {
        ReplaceIntroduces(content, ImportSection, NewImportSection);
        assert NewImportSection[|ImportSection| + 1..] == ClientImport;
        ContainsAt(NewImportSection, ClientImport, |ImportSection| + 1);
        ContainsTransitive(AddImport(content), NewImportSection, ClientImport);
      } else {
        ReplaceAbsent(content, ImportSection, NewImportSection);
      }
    }
  }

  /** Running the import step twice is the same as running it once. */
  lemma AddImportIdempotent(content: string)
    ensures AddImport(AddImport(content)) == AddImport(content)
  {
    AddImportGuarded(content);
    if !Contains(content, ClientImport) && !Contains(content, ImportSection) {
      ReplaceAbsent(content, ImportSection, NewImportSection);
    }
  }

  // ---------------------------------------------------------------------------
  // The method swaps

  /** One swap: every occurrence of the placeholder method becomes the bridge-backed one. */
  datatype Swap = Swap(before: string, after: string)

  predicate UsableSwap(s: Swap) {
    |s.before| > 0
  }

  function ApplySwap(content: string, s: Swap): string
    requires UsableSwap(s)
  {
    ReplaceAll(content, s.before, s.after)
  }

  /** `modify_agent_service` on the file's text: the import step, then the start, stop and pause swaps. */
  function ModifyAgentService(content: string, start: Swap, stop: Swap, pause: Swap): (r: string)
    requires UsableSwap(start) && UsableSwap(stop) && UsableSwap(pause)
  {
    ApplySwap(ApplySwap(ApplySwap(AddImport(content), start), stop), pause)
  }

  /**
   * A swap rewrites the first occurrence of its text and goes on after it; a swap whose
   * text does not occur changes nothing.
   */
  lemma SwapRewrites(a: string, b: string, s: Swap)
    requires UsableSwap(s)
    requires forall i :: 0 <= i < |a| ==> !StartsWith((a + s.before + b)[i..], s.before)
    ensures ApplySwap(a + s.before + b, s) == a + s.after + ApplySwap(b, s)
    ensures !Contains(b, s.before) ==> ApplySwap(a + s.before + b, s) == a + s.after + b
  {
    ReplaceLeftmost(a, b, s.before, s.after);
    if !Contains(b, s.before) {
      ReplaceAbsent(b, s.before, s.after);
    }
  }

  /** A file that already has the import and none of the placeholder methods is written back unchanged. */
  lemma ModifyAgentServiceNoOp(content: string, start: Swap, stop: Swap, pause: Swap)
    requires UsableSwap(start) && UsableSwap(stop) && UsableSwap(pause)
    requires Contains(content, ClientImport) || !Contains(content, ImportSection)
    requires !Contains(content, start.before) && !Contains(content, stop.before) && !Contains(content, pause.before)
    ensures ModifyAgentService(content, start, stop, pause) == content
  {
    AddImportGuarded(content);
    ReplaceAbsent(content, start.before, start.after);
    ReplaceAbsent(content, stop.before, stop.after);
    ReplaceAbsent(content, pause.before, pause.after);
  }
}
