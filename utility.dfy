/** The data-agent factory: the file suffix of a texture's path decides
    which agent (PNG, JPG or TGA) is made, and unsupported files get none. */
module Utility {
  import opened Wrappers
  import opened Text
  import opened Textures
  import opened DataAgents
  import ResizeAgents

  predicate IsPng(path: string) {
    EndsWith(path, ".png") || EndsWith(path, ".PNG")
  }

  predicate IsJpg(path: string) {
    EndsWith(path, ".jpg") || EndsWith(path, ".JPG")
  }

  predicate IsTga(path: string) {
    EndsWith(path, ".tga") || EndsWith(path, ".TGA")
  }

  /** The agent kind CreataAgent picks for a path. The suffixes are tried
      in the order PNG, JPG, TGA, but since a path can end in only one of
      them the order does not matter: each kind is chosen exactly when its
      suffix is present, and there is no agent for any other path. */
  function AgentFormatOf(path: string): (r: Option<FileFormat>)
    ensures r == Some(PNG) <==> IsPng(path)
    ensures r == Some(JPG) <==> IsJpg(path)
    ensures r == Some(TGA) <==> IsTga(path)
    ensures r.None? <==> !IsPng(path) && !IsJpg(path) && !IsTga(path)
  {
    SuffixesExclusive(path, ".png", ".jpg");
    SuffixesExclusive(path, ".png", ".JPG");
    SuffixesExclusive(path, ".PNG", ".jpg");
    SuffixesExclusive(path, ".PNG", ".JPG");
    SuffixesExclusive(path, ".png", ".tga");
    SuffixesExclusive(path, ".png", ".TGA");
    SuffixesExclusive(path, ".PNG", ".tga");
    SuffixesExclusive(path, ".PNG", ".TGA");
    SuffixesExclusive(path, ".jpg", ".tga");
    SuffixesExclusive(path, ".jpg", ".TGA");
    SuffixesExclusive(path, ".JPG", ".tga");
    SuffixesExclusive(path, ".JPG", ".TGA");
    if IsPng(path) then Some(PNG)
    else if IsJpg(path) then Some(JPG)
    else if IsTga(path) then Some(TGA)
    else None
  }

  /** The suffix test is case-sensitive and exact: mixed case and the
      four-letter JPEG suffix are not recognised. */
  lemma UnsupportedSuffixes()
    ensures AgentFormatOf("Assets/a.Png") == None
    ensures AgentFormatOf("Assets/b.jpeg") == None
    ensures AgentFormatOf("Assets/c.JPG") == Some(JPG)
  {
    assert "Assets/a.Png"[8..] == ".Png";
    assert "Assets/b.jpeg"[9..] == "jpeg";
    assert "Assets/b.jpeg"[9..] != ".jpg" && "Assets/b.jpeg"[9..] != ".png" && "Assets/b.jpeg"[9..] != ".tga";
    assert "Assets/c.JPG"[8..] == ".JPG";
  }

  /** The indices below n whose paths have an agent kind, ascending. */
  function KeptIndices(paths: seq<string>, n: nat): (r: seq<nat>)
    requires n <= |paths|
    ensures |r| <= n
    ensures forall k :: 0 <= k < |r| ==> r[k] < n && AgentFormatOf(paths[r[k]]).Some?
    ensures forall k, l :: 0 <= k < l < |r| ==> r[k] < r[l]
    ensures forall i :: 0 <= i < n && AgentFormatOf(paths[i]).Some? ==> i in r
  {
    if n == 0 then []
    else KeptIndices(paths, n - 1) + if AgentFormatOf(paths[n - 1]).Some? then [n - 1] else []
  }

  /** Make the agent for one texture. `path` is what the asset database
      maps the GUID to, `asset` the texture loaded from it and `current`
      what its importer reports; the error log for an unsupported path is
      not modelled. */
  method CreataAgent(guid: string, path: string, dataPath: string, asset: Texture?,
                     current: ResizeAgents.ImportSettings)
    returns (agent: TextureAgent?)
    requires AgentFormatOf(path).Some? ==> |path| >= 6 && asset != null
    ensures agent == null <==> AgentFormatOf(path).None?
    ensures agent != null ==> fresh(agent) && agent.guid == guid && agent.path == path &&
                              agent.format == AgentFormatOf(path).value && agent.value == asset
  {
    if IsPng(path) {
      return new TextureAgent(guid, path, dataPath, PNG, asset, current);
    }
    if IsJpg(path) {
      return new TextureAgent(guid, path, dataPath, JPG, asset, current);
    }
    if IsTga(path) {
      return new TextureAgent(guid, path, dataPath, TGA, asset, current);
    }
    return null;
  }

  /** Make the agents for a list of GUIDs: one per GUID whose path has a
      supported suffix, in GUID order. `paths`, `assets` and `currents`
      give, per GUID, what the asset database and the importer report. */
  method CreataAgents(guids: seq<string>, paths: seq<string>, dataPath: string,
                      assets: seq<Texture?>, currents: seq<ResizeAgents.ImportSettings>)
    returns (agents: seq<TextureAgent>)
    requires |paths| == |guids| && |assets| == |guids| && |currents| == |guids|
    requires forall i :: 0 <= i < |paths| && AgentFormatOf(paths[i]).Some? ==>
               |paths[i]| >= 6 && assets[i] != null
    ensures var kept := KeptIndices(paths, |paths|);
            |agents| == |kept| &&
            forall k :: 0 <= k < |agents| ==>
              fresh(agents[k]) && agents[k].guid == guids[kept[k]] && agents[k].path == paths[kept[k]] &&
              agents[k].format == AgentFormatOf(paths[kept[k]]).value
    ensures |agents| <= |guids|
  {
    agents := [];
    var i := 0;
    while i < |guids|
      invariant 0 <= i <= |guids|
      invariant var kept := KeptIndices(paths, i);
                |agents| == |kept| &&
                forall k :: 0 <= k < |agents| ==>
                  fresh(agents[k]) && agents[k].guid == guids[kept[k]] && agents[k].path == paths[kept[k]] &&
                  agents[k].format == AgentFormatOf(paths[kept[k]]).value
    {
      var agent := CreataAgent(guids[i], paths[i], dataPath, assets[i], currents[i]);
      if agent != null {
        agents := agents + [agent];
      }
      i := i + 1;
    }
  }
}
