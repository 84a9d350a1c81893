/** The selector registry: the ordered host table of the content script and
    the first-match classification of a hostname against it. */
module Sites {
  import opened Common
  import opened Strings

  datatype Selectors = Selectors(
    messageContainer: string,
    userMessage: string,
    messageText: string,
    scrollContainer: string,
    themeDetector: string)

  datatype SiteConfig = SiteConfig(name: string, key: string, selectors: Selectors, color: string)

  /** The detected platform: the table entry's configuration together with the
      domain fragment that matched. */
  datatype Site = Site(domain: string, config: SiteConfig)

  const ChatGptSelectors := Selectors(
    "div[data-testid^=\"conversation-turn\"]",
    "div[data-message-author-role=\"user\"]",
    "div[data-message-author-role=\"user\"] [data-message-content]",
    "div.overflow-hidden.w-full.h-full",
    "dark")

  /** Sites where the user-message selector is empty: prompts come from input
      capture instead of scraping. */
  function CaptureOnly(name: string, key: string, color: string): SiteConfig {
    SiteConfig(name, key, Selectors("main", "", "", "main", "dark"), color)
  }

  /** The host table in its insertion order, which decides precedence: entry
      `i` maps the domain fragment `Domains[i]` to the configuration `Configs[i]`. */
  const Domains: seq<string> := [
    "chat.openai.com", "chatgpt.com", "claude.ai", "gemini.google.com",
    "chat.deepseek.com", "deepseek.com", "perplexity.ai"]

  const Configs: seq<SiteConfig> := [
    SiteConfig("ChatGPT", "chatgpt", ChatGptSelectors, "#10a37f"),
    SiteConfig("ChatGPT", "chatgpt", ChatGptSelectors, "#10a37f"),
    SiteConfig("Claude", "claude", Selectors(
      ".contents .flex.flex-col",
      ".contents .flex.flex-col:has(.font-semibold.select-none)",
      ".contents .flex.flex-col .whitespace-pre-wrap",
      "main .flex-1.overflow-hidden",
      "dark:bg-[#171717]"), "#d4a574"),
    CaptureOnly("Gemini", "gemini", "#8ab4f8"),
    SiteConfig("DeepSeek", "deepseek", Selectors(
      ".message",
      ".message:has(.message-role-user)",
      ".message-content .prose",
      ".chat-container",
      "dark"), "#6e40c9"),
    CaptureOnly("DeepSeek", "deepseek", "#6e40c9"),
    CaptureOnly("Perplexity", "perplexity", "#10b981")]

  /** Position of the first entry at or after `from` whose domain occurs in `hostname`. */
  function FirstMatch(domains: seq<string>, hostname: string, from: nat): (r: Option<nat>)
    requires from <= |domains|
    ensures r.Some? ==> from <= r.value < |domains| && Contains(hostname, domains[r.value])
    ensures r.Some? ==> forall j :: from <= j < r.value ==> !Contains(hostname, domains[j])
    ensures r.None? <==> forall j :: from <= j < |domains| ==> !Contains(hostname, domains[j])
    decreases |domains| - from
  {
    if from == |domains| then None
    else if Contains(hostname, domains[from]) then Some(from)
    else FirstMatch(domains, hostname, from + 1)
  }

  /** `detectLLM`: the first table entry whose domain is a substring of the
      hostname; when none matches, the current platform is kept as it was. */
  function DetectLLM(current: Option<Site>, hostname: string): (r: Option<Site>)
    ensures (exists j :: 0 <= j < |Domains| && Contains(hostname, Domains[j])) ==>
      exists i :: 0 <= i < |Domains| && r == Some(Site(Domains[i], Configs[i]))
        && Contains(hostname, Domains[i])
        && forall j :: 0 <= j < i ==> !Contains(hostname, Domains[j])
    ensures (forall j :: 0 <= j < |Domains| ==> !Contains(hostname, Domains[j])) ==> r == current
  {
    match FirstMatch(Domains, hostname, 0)
    case Some(i) => Some(Site(Domains[i], Configs[i]))
    case None => current
  }

  /** An entry whose domain does not occur in the host is passed over. */
  lemma SkipEntry(host: string, i: nat)
    requires i < |Domains| && !Contains(host, Domains[i])
    ensures FirstMatch(Domains, host, i) == FirstMatch(Domains, host, i + 1)
  {
  }

  /** None of the four entries ahead of `chat.deepseek.com` occurs in a
      DeepSeek host: each has a character such a host lacks. */
  lemma DeepseekMissesEarlierEntries(host: string)
    requires 'i' !in host && 'g' !in host && 'l' !in host
    ensures !Contains(host, Domains[0]) && !Contains(host, Domains[1])
    ensures !Contains(host, Domains[2]) && !Contains(host, Domains[3])
  {
    MissingCharNotContained(host, Domains[0], 'i');
    MissingCharNotContained(host, Domains[1], 'g');
    MissingCharNotContained(host, Domains[2], 'l');
    MissingCharNotContained(host, Domains[3], 'g');
  }

  lemma ChatDeepseekEntry(host: string)
    requires host == "chat.deepseek.com"
    ensures FirstMatch(Domains, host, 0) == Some(4)
  {
    assert FirstMatch(Domains, host, 4) == Some(4) by {
      assert OccursAt(host, Domains[4], 0);
    }
    DeepseekMissesEarlierEntries(host);
    SkipEntry(host, 3);
    SkipEntry(host, 2);
    SkipEntry(host, 1);
    SkipEntry(host, 0);
  }

  /** `chat.deepseek.com` gets the scraping configuration, with a non-empty
      user-message selector, not the capture-only `deepseek.com` one that
      follows it in the table. */
  lemma ChatDeepseekScrapes(current: Option<Site>)
    ensures DetectLLM(current, "chat.deepseek.com").Some?
    ensures DetectLLM(current, "chat.deepseek.com").value.domain == "chat.deepseek.com"
    ensures DetectLLM(current, "chat.deepseek.com").value.config.selectors.userMessage != ""
  {
    ChatDeepseekEntry("chat.deepseek.com");
  }

  lemma BareDeepseekEntry(host: string)
    requires host == "deepseek.com"
    ensures FirstMatch(Domains, host, 0) == Some(5)
  {
    assert FirstMatch(Domains, host, 5) == Some(5) by {
      assert OccursAt(host, Domains[5], 0);
    }
    assert !Contains(host, Domains[4]) by {
      assert |Domains[4]| > |host|;
    }
    SkipEntry(host, 4);
    DeepseekMissesEarlierEntries(host);
    SkipEntry(host, 3);
    SkipEntry(host, 2);
    SkipEntry(host, 1);
    SkipEntry(host, 0);
  }

  /** A bare `deepseek.com` host gets the capture-only configuration. */
  lemma BareDeepseekCaptures(current: Option<Site>)
    ensures DetectLLM(current, "deepseek.com").Some?
    ensures DetectLLM(current, "deepseek.com").value.domain == "deepseek.com"
    ensures DetectLLM(current, "deepseek.com").value.config.selectors.userMessage == ""
  {
    BareDeepseekEntry("deepseek.com");
  }

  lemma ExampleOrgMisses(host: string)
    requires host == "example.org"
    ensures !Contains(host, Domains[0]) && !Contains(host, Domains[1])
    ensures !Contains(host, Domains[2]) && !Contains(host, Domains[3])
    ensures !Contains(host, Domains[4]) && !Contains(host, Domains[5])
    ensures !Contains(host, Domains[6])
  {
    MissingCharNotContained(host, Domains[0], 'h');
    MissingCharNotContained(host, Domains[1], 'h');
    MissingCharNotContained(host, Domains[2], 'c');
    MissingCharNotContained(host, Domains[3], 'i');
    MissingCharNotContained(host, Domains[4], 'h');
    MissingCharNotContained(host, Domains[5], 'd');
    MissingCharNotContained(host, Domains[6], 'i');
  }

  /** An unsupported host leaves the previously detected platform in place. */
  lemma UnsupportedHostKeepsCurrent(current: Option<Site>)
    ensures DetectLLM(current, "example.org") == current
  {
    var host := "example.org";
    ExampleOrgMisses(host);
    SkipEntry(host, 6);
    SkipEntry(host, 5);
    SkipEntry(host, 4);
    SkipEntry(host, 3);
    SkipEntry(host, 2);
    SkipEntry(host, 1);
    SkipEntry(host, 0);
  }
}
