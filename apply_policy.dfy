/**
 * The user-policy applier: merges a policy document into the Claude and
 * Gemini settings documents of the user's home directory.
 *
 * The settings dicts, which the script reads, mutates in place and writes
 * back, are modelled by value: each operation takes the stored document
 * (or its absence) and returns the document that is written back.
 */
module ApplyPolicy {
  import opened Wrappers
  import opened JsonValue

  // ---------------------------------------------------------------------
  // read_json
  // ---------------------------------------------------------------------

  /** The document read from a file: its decoded content, or `default` when the file does not exist. */
  function ReadJson(stored: Option<Json>, default: Json): (r: Json)
    ensures stored.None? ==> r == default
    ensures stored.Some? ==> r == stored.value
  {
    stored.GetOr(default)
  }

  // ---------------------------------------------------------------------
  // The allow-list merge of ensure_claude_permissions
  // ---------------------------------------------------------------------

  /**
   * The allow list after the loop has seen `items`: each item not already
   * on the list is appended, in turn. Defined item by item from the left,
   * as the loop runs.
   */
  function Merge<T(==)>(allow: seq<T>, items: seq<T>): seq<T>
    decreases |items|
  {
    if items == [] then allow
    else
      var m := Merge(allow, items[..|items| - 1]);
      var x := items[|items| - 1];
      if x in m then m else m + [x]
  }

  predicate NoDuplicates<T(==)>(s: seq<T>) {
    forall i, j :: 0 <= i < j < |s| ==> s[i] != s[j]
  }

  /** The original list is an unchanged prefix of the merged list. */
  lemma {:induction false} MergePrefix<T>(allow: seq<T>, items: seq<T>)
    ensures |allow| <= |Merge(allow, items)|
    ensures Merge(allow, items)[..|allow|] == allow
    decreases |items|
  {
    if items != [] {
      MergePrefix(allow, items[..|items| - 1]);
    }
  }

  /** The merged list holds exactly the original entries and the policy items. */
  lemma {:induction false} MergeMembers<T>(allow: seq<T>, items: seq<T>, x: T)
    ensures x in Merge(allow, items) <==> x in allow || x in items
    decreases |items|
  {
    if items != [] {
      var init := items[..|items| - 1];
      assert items == init + [items[|items| - 1]];
      MergeMembers(allow, init, x);
    }
  }

  /**
   * The appended suffix has no duplicates and shares no entry with the
   * original list, even when the policy repeats an item.
   */
  lemma {:induction false} MergeSuffixFresh<T>(allow: seq<T>, items: seq<T>)
    ensures |allow| <= |Merge(allow, items)|
    ensures NoDuplicates(Merge(allow, items)[|allow|..])
    ensures forall i :: |allow| <= i < |Merge(allow, items)| ==> Merge(allow, items)[i] !in allow
    decreases |items|
  {
    MergePrefix(allow, items);
    if items != [] {
      var init := items[..|items| - 1];
      var x := items[|items| - 1];
      var m := Merge(allow, init);
      MergeSuffixFresh(allow, init);
      MergePrefix(allow, init);
      if x !in m {
        forall y | y in allow ensures y in m {
          var k :| 0 <= k < |allow| && allow[k] == y;
          assert m[k] == y;
        }
        var s := (m + [x])[|allow|..];
        assert s == m[|allow|..] + [x];
        forall i, j | 0 <= i < j < |s| ensures s[i] != s[j] {
          if j == |s| - 1 {
            assert s[i] == m[|allow| + i];
          } else {
            assert s[i] == m[|allow|..][i] && s[j] == m[|allow|..][j];
          }
        }
      }
    }
  }

  /**
   * Appended items keep the order of their first occurrence in the policy:
   * when entry p of the suffix comes before entry q, every occurrence of
   * entry q in the policy list is preceded by an occurrence of entry p.
   */
  lemma {:induction false} MergeOrder<T>(allow: seq<T>, items: seq<T>, p: nat, q: nat)
    requires |allow| <= p < q < |Merge(allow, items)|
    ensures forall k :: 0 <= k < |items| && items[k] == Merge(allow, items)[q] ==>
              Merge(allow, items)[p] in items[..k]
    decreases |items|
  {
    var m := Merge(allow, items);
    var init := items[..|items| - 1];
    var x := items[|items| - 1];
    var mi := Merge(allow, init);
    MergeSuffixFresh(allow, items);
    // m[p] is an appended entry, so it comes from the policy list
    MergeMembers(allow, items, m[p]);
    assert m[p] in init by {
      MergeSuffixFresh(allow, init);
      MergePrefix(allow, init);
      assert |m| <= |mi| + 1 && p < |mi|;
      assert m[p] == mi[p];
      MergeMembers(allow, init, mi[p]);
    }
    if q < |mi| {
      assert m[q] == mi[q] && m[p] == mi[p];
      MergeOrder(allow, init, p, q);
      forall k | 0 <= k < |items| && items[k] == m[q] ensures m[p] in items[..k] {
        if k < |init| {
          assert items[..k] == init[..k];
        } else {
          assert items[..k] == init;
        }
      }
    } else {
      // m[q] is x, appended because it was not on the list before
      assert x !in mi && m == mi + [x] && m[q] == x;
      forall k | 0 <= k < |items| && items[k] == m[q] ensures m[p] in items[..k] {
        if k < |init| {
          assert x == init[k];
          MergeMembers(allow, init, x);
          assert false;
        } else {
          assert items[..k] == init;
        }
      }
    }
  }

  /** Merging items that are all on the list already changes nothing. */
  lemma {:induction false} MergeNoop<T>(allow: seq<T>, items: seq<T>)
    requires forall x :: x in items ==> x in allow
    ensures Merge(allow, items) == allow
    decreases |items|
  {
    if items != [] {
      var init := items[..|items| - 1];
      assert forall x :: x in init ==> x in items;
      MergeNoop(allow, init);
      assert items[|items| - 1] in items;
    }
  }

  /** Applying the same policy list twice gives the allow list of applying it once. */
  lemma {:induction false} MergeIdempotent<T>(allow: seq<T>, items: seq<T>)
    ensures Merge(Merge(allow, items), items) == Merge(allow, items)
  {
    forall x | x in items ensures x in Merge(allow, items) {
      MergeMembers(allow, items, x);
    }
    MergeNoop(Merge(allow, items), items);
  }

  /**
   * The loop of ensure_claude_permissions: appends each item that is not
   * yet on the list, keeping a set of the entries seen so far.
   */
  method MergeAllow<T(==)>(allow: seq<T>, items: seq<T>) returns (merged: seq<T>)
    ensures merged == Merge(allow, items)
  {
    merged := allow;
    var allowSet := set x | x in allow;
    for i := 0 to |items|
      invariant merged == Merge(allow, items[..i])
      invariant allowSet == set x | x in merged
    {
      var item := items[i];
      assert items[..i + 1][..i] == items[..i];
      if item !in allowSet {
        merged := merged + [item];
        allowSet := allowSet + {item};
      }
    }
    assert items[..|items|] == items;
  }

  // ---------------------------------------------------------------------
  // ensure_claude_permissions on the whole settings document
  // ---------------------------------------------------------------------

  /**
   * What the script needs of its inputs so as not to raise: `permissions`,
   * when present, is a dict; its `allow`, when present, is a list of
   * hashable values; the policy's `permissionsAllow`, when present, is a
   * list of hashable values.
   */
  predicate ClaudeReady(settings: map<string, Json>, policy: map<string, Json>) {
    var perms := Get(settings, "permissions", EmptyObject);
    var items := Get(policy, "permissionsAllow", EmptyArray);
    perms.JObj? && items.JArr? && AllHashable(items.elems) &&
    var allow := Get(perms.fields, "allow", EmptyArray);
    allow.JArr? && AllHashable(allow.elems)
  }

  function PermissionsOf(settings: map<string, Json>): map<string, Json>
    requires Get(settings, "permissions", EmptyObject).JObj?
  {
    Get(settings, "permissions", EmptyObject).fields
  }

  function AllowOf(settings: map<string, Json>): seq<Json>
    requires Get(settings, "permissions", EmptyObject).JObj?
    requires Get(PermissionsOf(settings), "allow", EmptyArray).JArr?
  {
    Get(PermissionsOf(settings), "allow", EmptyArray).elems
  }

  function PolicyAllow(policy: map<string, Json>): seq<Json>
    requires Get(policy, "permissionsAllow", EmptyArray).JArr?
  {
    Get(policy, "permissionsAllow", EmptyArray).elems
  }

  /**
   * The settings document written back by ensure_claude_permissions:
   * missing `permissions` and `allow` keys are created empty, the allow list
   * becomes the merge of the policy list into it, and nothing else changes.
   */
  function ClaudeSettings(settings: map<string, Json>, policy: map<string, Json>): (r: map<string, Json>)
    requires ClaudeReady(settings, policy)
    ensures r.Keys == settings.Keys + {"permissions"}
    ensures forall k :: k in settings && k != "permissions" ==> r[k] == settings[k]
    ensures r["permissions"].JObj?
    ensures r["permissions"].fields.Keys == PermissionsOf(settings).Keys + {"allow"}
    ensures forall k :: k in PermissionsOf(settings) && k != "allow" ==>
              r["permissions"].fields[k] == PermissionsOf(settings)[k]
    ensures r["permissions"].fields["allow"] == JArr(Merge(AllowOf(settings), PolicyAllow(policy)))
  {
    var perms := PermissionsOf(settings);
    settings["permissions" := JObj(perms["allow" := JArr(Merge(AllowOf(settings), PolicyAllow(policy)))])]
  }

  /** Applying the Claude policy to its own result changes nothing more. */
  lemma ClaudeIdempotent(settings: map<string, Json>, policy: map<string, Json>)
    requires ClaudeReady(settings, policy)
    ensures ClaudeReady(ClaudeSettings(settings, policy), policy)
    ensures ClaudeSettings(ClaudeSettings(settings, policy), policy) == ClaudeSettings(settings, policy)
  {
    var allow, items := AllowOf(settings), PolicyAllow(policy);
    var merged := Merge(allow, items);
    forall i | 0 <= i < |merged| ensures Hashable(merged[i]) {
      MergeMembers(allow, items, merged[i]);
    }
    var once := ClaudeSettings(settings, policy);
    assert AllowOf(once) == merged;
    MergeIdempotent(allow, items);
    var twice := ClaudeSettings(once, policy);
    assert PermissionsOf(twice) == PermissionsOf(once);
  }

  /**
   * ensure_claude_permissions: reads the settings (an empty dict when the
   * file is missing), creates the missing keys, merges the allow list in
   * place and returns the document to write back.
   */
  method EnsureClaudePermissions(stored: Option<Json>, policy: map<string, Json>)
    returns (settings: map<string, Json>)
    requires ReadJson(stored, EmptyObject).JObj?
    requires ClaudeReady(ReadJson(stored, EmptyObject).fields, policy)
    ensures settings == ClaudeSettings(ReadJson(stored, EmptyObject).fields, policy)
  {
    settings := ReadJson(stored, EmptyObject).fields;
    var permissions := if "permissions" in settings then settings["permissions"].fields else map[];
    var allow := if "allow" in permissions then permissions["allow"].elems else [];
    var items := if "permissionsAllow" in policy then policy["permissionsAllow"].elems else [];
    allow := MergeAllow(allow, items);
    permissions := permissions["allow" := JArr(allow)];
    settings := settings["permissions" := JObj(permissions)];
  }

  // ---------------------------------------------------------------------
  // ensure_gemini_mcp_trust
  // ---------------------------------------------------------------------

  /** One server entry after the trust loop: a dict gains `trust: true`, anything else is left alone. */
  function Trusted(cfg: Json): (r: Json)
    ensures cfg.JObj? ==> r.JObj? && r.fields.Keys == cfg.fields.Keys + {"trust"}
    ensures cfg.JObj? ==> r.fields["trust"] == JBool(true)
    ensures cfg.JObj? ==> forall k :: k in cfg.fields && k != "trust" ==> r.fields[k] == cfg.fields[k]
    ensures !cfg.JObj? ==> r == cfg
  {
    if cfg.JObj? then JObj(cfg.fields["trust" := JBool(true)]) else cfg
  }

  /** All server entries after the trust loop; the set of server names is unchanged. */
  function TrustAll(servers: map<string, Json>): (r: map<string, Json>)
    ensures r.Keys == servers.Keys
  {
    map name | name in servers :: Trusted(servers[name])
  }

  /** Forcing trust a second time changes nothing. */
  lemma TrustAllIdempotent(servers: map<string, Json>)
    ensures TrustAll(TrustAll(servers)) == TrustAll(servers)
  {
    forall name | name in servers ensures Trusted(Trusted(servers[name])) == Trusted(servers[name]) {
      var cfg := servers[name];
      if cfg.JObj? {
        assert cfg.fields["trust" := JBool(true)]["trust" := JBool(true)] == cfg.fields["trust" := JBool(true)];
      }
    }
  }

  /** The `for _, server_cfg in servers.items()` loop: sets `trust` on every dict entry. */
  method ForceTrust(servers: map<string, Json>) returns (updated: map<string, Json>)
    ensures updated == TrustAll(servers)
  {
    updated := servers;
    var todo := servers.Keys;
    while todo != {}
      invariant todo <= servers.Keys
      invariant updated.Keys == servers.Keys
      invariant forall name :: name in servers && name !in todo ==> updated[name] == Trusted(servers[name])
      invariant forall name :: name in todo ==> updated[name] == servers[name]
      decreases todo
    {
      var name :| name in todo;
      var cfg := updated[name];
      if cfg.JObj? {
        updated := updated[name := JObj(cfg.fields["trust" := JBool(true)])];
      }
      todo := todo - {name};
    }
  }

  /** Whether the policy asks for trust: `policy.get("forceMcpTrust")` is truthy. */
  predicate ForcesTrust(policy: map<string, Json>) {
    Truthy(Get(policy, "forceMcpTrust", JNull))
  }

  /**
   * What the script needs so as not to raise: only when trust is forced is
   * the document used, and then it must be a dict whose `mcpServers`, if
   * present, is a dict. Otherwise any document is written back as read.
   */
  predicate GeminiReady(settings: Json, policy: map<string, Json>) {
    ForcesTrust(policy) ==>
      settings.JObj? && ("mcpServers" in settings.fields ==> settings.fields["mcpServers"].JObj?)
  }

  /**
   * The settings document written back by ensure_gemini_mcp_trust. Without
   * a truthy `forceMcpTrust` it is the document read, whatever its shape;
   * without `mcpServers` it is the document read too, and in particular no
   * `mcpServers` key is added. Otherwise only `mcpServers` changes.
   */
  function GeminiSettings(settings: Json, policy: map<string, Json>): (r: Json)
    requires GeminiReady(settings, policy)
    ensures !ForcesTrust(policy) ==> r == settings
    ensures ForcesTrust(policy) && "mcpServers" !in settings.fields ==> r == settings
    ensures ForcesTrust(policy) ==> r.JObj? && r.fields.Keys == settings.fields.Keys
    ensures ForcesTrust(policy) ==>
              forall k :: k in settings.fields && k != "mcpServers" ==> r.fields[k] == settings.fields[k]
    ensures ForcesTrust(policy) && "mcpServers" in settings.fields ==>
              r.fields["mcpServers"] == JObj(TrustAll(settings.fields["mcpServers"].fields))
  {
    if ForcesTrust(policy) && "mcpServers" in settings.fields then
      JObj(settings.fields["mcpServers" := JObj(TrustAll(settings.fields["mcpServers"].fields))])
    else settings
  }

  /**
   * After a forced run every dict-valued server has `trust == true` and keeps
   * its other keys, and every other server entry is unchanged.
   */
  lemma GeminiTrusted(settings: Json, policy: map<string, Json>, name: string)
    requires GeminiReady(settings, policy) && ForcesTrust(policy)
    requires "mcpServers" in settings.fields && name in settings.fields["mcpServers"].fields
    ensures var before := settings.fields["mcpServers"].fields[name];
            var after := GeminiSettings(settings, policy).fields["mcpServers"].fields[name];
            (before.JObj? ==> after.JObj? && after.fields["trust"] == JBool(true) &&
                              after.fields.Keys == before.fields.Keys + {"trust"} &&
                              forall k :: k in before.fields && k != "trust" ==> after.fields[k] == before.fields[k]) &&
            (!before.JObj? ==> after == before)
  {
  }

  /** Applying the Gemini policy to its own result changes nothing more. */
  lemma GeminiIdempotent(settings: Json, policy: map<string, Json>)
    requires GeminiReady(settings, policy)
    ensures GeminiReady(GeminiSettings(settings, policy), policy)
    ensures GeminiSettings(GeminiSettings(settings, policy), policy) == GeminiSettings(settings, policy)
  {
    if ForcesTrust(policy) && "mcpServers" in settings.fields {
      TrustAllIdempotent(settings.fields["mcpServers"].fields);
    }
  }

  /**
   * ensure_gemini_mcp_trust: reads the settings (an empty dict when the file
   * is missing), sets trust on every dict-valued server when the policy
   * forces it, and returns the document to write back.
   */
  method EnsureGeminiMcpTrust(stored: Option<Json>, policy: map<string, Json>)
    returns (settings: Json)
    requires GeminiReady(ReadJson(stored, EmptyObject), policy)
    ensures settings == GeminiSettings(ReadJson(stored, EmptyObject), policy)
  {
    settings := ReadJson(stored, EmptyObject);
    if Truthy(Get(policy, "forceMcpTrust", JNull)) {
      var servers := Get(settings.fields, "mcpServers", EmptyObject).fields;
      servers := ForceTrust(servers);
      if "mcpServers" in settings.fields {
        settings := JObj(settings.fields["mcpServers" := JObj(servers)]);
      }
    }
  }

  // ---------------------------------------------------------------------
  // main
  // ---------------------------------------------------------------------

  /** The `claude` or `gemini` section of the policy document, `{}` when absent. */
  function Section(policy: Json, name: string): Json
    requires policy.JObj?
  {
    Get(policy.fields, name, EmptyObject)
  }

  /** What main needs of the three stored documents so that neither step raises. */
  predicate CanApply(storedPolicy: Option<Json>, storedClaude: Option<Json>, storedGemini: Option<Json>) {
    var policy := ReadJson(storedPolicy, EmptyObject);
    var claude := ReadJson(storedClaude, EmptyObject);
    var gemini := ReadJson(storedGemini, EmptyObject);
    policy.JObj? && Section(policy, "claude").JObj? && Section(policy, "gemini").JObj? &&
    claude.JObj? && ClaudeReady(claude.fields, Section(policy, "claude").fields) &&
    GeminiReady(gemini, Section(policy, "gemini").fields)
  }

  /**
   * main: reads the policy (an empty dict when missing) and applies its
   * `claude` section to the Claude settings and its `gemini` section to the
   * Gemini settings; returns both documents to write back.
   */
  method ApplyUserPolicy(storedPolicy: Option<Json>, storedClaude: Option<Json>, storedGemini: Option<Json>)
    returns (claude: map<string, Json>, gemini: Json)
    requires CanApply(storedPolicy, storedClaude, storedGemini)
    ensures var policy := ReadJson(storedPolicy, EmptyObject);
            claude == ClaudeSettings(ReadJson(storedClaude, EmptyObject).fields, Section(policy, "claude").fields) &&
            gemini == GeminiSettings(ReadJson(storedGemini, EmptyObject), Section(policy, "gemini").fields)
  {
    var policy := ReadJson(storedPolicy, EmptyObject);
    var claudePolicy := Get(policy.fields, "claude", EmptyObject).fields;
    var geminiPolicy := Get(policy.fields, "gemini", EmptyObject).fields;
    claude := EnsureClaudePermissions(storedClaude, claudePolicy);
    gemini := EnsureGeminiMcpTrust(storedGemini, geminiPolicy);
  }
}
