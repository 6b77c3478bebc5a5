/** `apiGroupFromSwagger`: the Kubernetes API group named after the service alias. */
module ApiGroup {
  import opened GoLib
  import opened Collaborators

  /** The `info` extension that carries the service alias. */
  const AliasExtension: string := "x-aws-api-alias"

  /** The alias used when the document has no alias extension. */
  const DefaultAlias: string := "unknown"

  /** What follows the alias in every API group. */
  const GroupSuffix: string := ".services.k8s.aws"

  const Quote: byte := 0x22

  /** `strings.Replace(s, "\"", "", -1)`: `s` with every double quote removed, the rest in order. */
  function StripQuotes(s: string): (r: string)
    ensures '"' !in r
    ensures '"' !in s ==> r == s
  {
    if s == [] then []
    else
      assert s == [s[0]] + s[1..];
      (if s[0] == '"' then [] else [s[0]]) + StripQuotes(s[1..])
  }

  /** Removing quotes keeps every other character as often as it occurs. */
  lemma {:induction false} StripQuotesKeepsOthers(s: string)
    ensures forall c :: c != '"' ==> multiset(StripQuotes(s))[c] == multiset(s)[c]
  {
    if s != [] {
      StripQuotesKeepsOthers(s[1..]);
      assert s == [s[0]] + s[1..];
      assert StripQuotes(s) == (if s[0] == '"' then [] else [s[0]]) + StripQuotes(s[1..]);
    }
  }

  lemma {:induction false} StripQuotesConcat(a: string, b: string)
    ensures StripQuotes(a + b) == StripQuotes(a) + StripQuotes(b)
  {
    if a == [] {
      assert a + b == b;
    } else {
      assert (a + b)[0] == a[0] && (a + b)[1..] == a[1..] + b;
      StripQuotesConcat(a[1..], b);
    }
  }

  /** Text without quotes passes through unchanged when appended. */
  lemma StripQuotesAppendUnquoted(a: string, b: string)
    requires '"' !in b
    ensures StripQuotes(a + b) == StripQuotes(a) + b
  {
    StripQuotesConcat(a, b);
  }

  /** The alias as `fmt.Sprintf("%s", …)` prints it, before quotes are removed. */
  function AliasText(api: Swagger): string
  {
    if AliasExtension in api.infoExtensions then
      BytesToString(MarshalJson(api.infoExtensions[AliasExtension]))
    else
      DefaultAlias
  }

  /** The default alias holds no quote, and with the suffix it spells the default group. */
  lemma DefaultGroupSpelling()
    ensures '"' !in DefaultAlias
    ensures DefaultAlias + GroupSuffix == "unknown.services.k8s.aws"
  {
  }

  /**
   * `apiGroupFromSwagger`: the alias (by default "unknown") followed by
   * ".services.k8s.aws", with every double quote removed.
   */
  function ApiGroupFromSwagger(api: Swagger): (g: string)
    ensures '"' !in g
    ensures |GroupSuffix| <= |g| && g[|g| - |GroupSuffix|..] == GroupSuffix
    ensures g == StripQuotes(AliasText(api)) + GroupSuffix
    ensures AliasExtension !in api.infoExtensions ==> g == "unknown.services.k8s.aws"
  {
    var alias := AliasText(api);
    StripQuotesAppendUnquoted(alias, GroupSuffix);
    DefaultGroupSpelling();
    StripQuotes(alias + GroupSuffix)
  }

  /**
   * An alias written as a JSON string, `"name"`, gives the group
   * `name.services.k8s.aws`: the quotes of the JSON encoding are dropped.
   */
  lemma QuotedAliasIsUnquoted(api: Swagger, name: seq<byte>)
    requires Quote !in name
    requires AliasExtension in api.infoExtensions
    requires api.infoExtensions[AliasExtension] == Message([Quote] + name + [Quote])
    ensures ApiGroupFromSwagger(api) == BytesToString(name) + GroupSuffix
  {
    var q := BytesToString([Quote]);
    var n := BytesToString(name);
    BytesToStringConcat([Quote] + name, [Quote]);
    BytesToStringConcat([Quote], name);
    assert AliasText(api) == q + n + q;
    assert q == ['"'];
    assert '"' !in n by {
      forall k | 0 <= k < |n| ensures n[k] != '"' {
        assert name[k] != Quote;
      }
    }
    StripQuotesConcat(q + n, q);
    StripQuotesConcat(q, n);
  }
}
