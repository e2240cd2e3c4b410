/**
  The desktop's credentials: the pairing code with its expiry, and the list of connection
  tokens, capped to the newest hundred and copied to the configuration on every issue.
  Times are milliseconds.
 */
module ConnectionTokens {
  import opened Wrappers

  const MAX_CONNECTION_TOKENS := 100
  const CONNECTION_TOKEN_TTL := 30 * 24 * 60 * 60 * 1_000

  datatype Record = Record(token: string, issuedAt: int)

  datatype PairingCode = PairingCode(code: string, issuedAt: int)

  datatype CredentialKind = CodeCredential | TokenCredential | Invalid

  predicate VerifyPairingCode(stored: PairingCode, request: string, expiryMinutes: nat, now: int) {
    stored.code == request && now - stored.issuedAt <= expiryMinutes * 60_000
  }

  predicate CodeExpired(stored: PairingCode, expiryMinutes: nat, now: int) {
    now - stored.issuedAt >= expiryMinutes * 60_000
  }

  ghost predicate VerifyConnectionToken(token: string, stored: seq<Record>, now: int) {
    exists i :: 0 <= i < |stored| && stored[i].token == token && now - stored[i].issuedAt <= CONNECTION_TOKEN_TTL
  }

  ghost function CredentialOf(code: Option<PairingCode>, tokens: seq<Record>, credential: string,
                              expiryMinutes: nat, now: int): CredentialKind
  {
    if code.Some? && VerifyPairingCode(code.value, credential, expiryMinutes, now) then CodeCredential
    else if VerifyConnectionToken(credential, tokens, now) then TokenCredential
    else Invalid
  }

  /**
    What validation decides: a credential passes as the pairing code exactly if a code is stored, is this one and
    is no older than the expiry; and it is invalid exactly if besides no listed token of that name is
    thirty days old or younger.
   */
  lemma CredentialDecided(code: Option<PairingCode>, tokens: seq<Record>, credential: string,
                          expiryMinutes: nat, now: int)
    ensures CredentialOf(code, tokens, credential, expiryMinutes, now).CodeCredential? <==>
            code.Some? && credential == code.value.code && now <= code.value.issuedAt + expiryMinutes * 60_000
    ensures CredentialOf(code, tokens, credential, expiryMinutes, now).Invalid? <==>
            && !(code.Some? && credential == code.value.code && now <= code.value.issuedAt + expiryMinutes * 60_000)
            && forall r :: r in tokens && r.token == credential ==> now > r.issuedAt + 2_592_000_000
  {
    if VerifyConnectionToken(credential, tokens, now) {
      var i :| 0 <= i < |tokens| && tokens[i].token == credential && now - tokens[i].issuedAt <= CONNECTION_TOKEN_TTL;
      assert tokens[i] in tokens;
    } else {
      forall r | r in tokens && r.token == credential
        ensures now > r.issuedAt + 2_592_000_000
      {
        var i :| 0 <= i < |tokens| && tokens[i] == r;
        assert !(tokens[i].token == credential && now - tokens[i].issuedAt <= CONNECTION_TOKEN_TTL);
      }
    }
  }

  /** The newest `n` records. */
  function Newest(records: seq<Record>, n: nat): seq<Record> {
    if |records| <= n then records else records[|records| - n..]
  }

  /** The list in memory and its copy in the configuration. */
  datatype Tokens = Tokens(memory: seq<Record>, config: Option<seq<Record>>)

  function Loaded(config: Option<seq<Record>>): Tokens {
    Tokens(if config.Some? then config.value else [], config)
  }

  function Added(t: Tokens, r: Record): Tokens {
    var memory := Newest(t.memory + [r], MAX_CONNECTION_TOKENS);
    Tokens(memory, Some(memory))
  }

  function AddedAll(t: Tokens, issued: seq<Record>): Tokens {
    if issued == [] then t else Added(AddedAll(t, issued[..|issued|-1]), issued[|issued|-1])
  }

  lemma NewestOfNewest(records: seq<Record>, n: nat, r: Record)
    requires n > 0
    ensures Newest(Newest(records, n) + [r], n) == Newest(records + [r], n)
  {
  }

  /**
    The capped list refines the full history: after at least one issue, memory and configuration
    both hold the newest hundred of everything loaded and issued.
   */
  lemma {:induction false} ListIsNewestHundred(config: Option<seq<Record>>, issued: seq<Record>)
    requires issued != []
    ensures var all := Loaded(config).memory + issued;
            AddedAll(Loaded(config), issued) ==
            Tokens(Newest(all, MAX_CONNECTION_TOKENS), Some(Newest(all, MAX_CONNECTION_TOKENS)))
  {
    var init, last := issued[..|issued|-1], issued[|issued|-1];
    var loaded := Loaded(config).memory;
    assert loaded + issued == loaded + init + [last];
    if init == [] {
      assert loaded + init == loaded;
    } else {
      ListIsNewestHundred(config, init);
      NewestOfNewest(loaded + init, MAX_CONNECTION_TOKENS, last);
    }
  }

  /** A list loaded with more than a hundred records is cut only by the first issue. */
  lemma CappedExactly(config: Option<seq<Record>>, issued: seq<Record>)
    ensures AddedAll(Loaded(config), issued).memory ==
            Newest(Loaded(config).memory + issued, MAX_CONNECTION_TOKENS) <==>
            issued != [] || |Loaded(config).memory| <= MAX_CONNECTION_TOKENS
  {
    if issued == [] {
      assert Loaded(config).memory + issued == Loaded(config).memory;
    } else {
      ListIsNewestHundred(config, issued);
    }
  }

  /**
    A token that occurs once, at position p, verifies against the newest n exactly when it is among them
    and young enough.
   */
  lemma NewestVerifies(all: seq<Record>, p: nat, n: nat, now: int)
    requires p < |all|
    requires forall i :: 0 <= i < |all| && i != p ==> all[i].token != all[p].token
    ensures VerifyConnectionToken(all[p].token, Newest(all, n), now) <==>
            |all| - p <= n && now - all[p].issuedAt <= CONNECTION_TOKEN_TTL
  {
    var kept := Newest(all, n);
    var cut := |all| - |kept|;
    if |all| - p <= n {
      assert kept[p - cut] == all[p];
    }
    forall i | 0 <= i < |kept| && kept[i].token == all[p].token
      ensures i + cut == p
    {
      assert kept[i] == all[i + cut];
    }
  }

  /** Everything there ever was: what the configuration held, then what was issued. */
  function History(config: Option<seq<Record>>, issued: seq<Record>): seq<Record> {
    (match config case Some(records) => records case None => []) + issued
  }

  /**
    A token that occurs once, at position p of the history, is accepted as a token exactly when fewer than a
    hundred follow it, or nothing was issued since the start, it is at most thirty days old, and it does not
    happen to be the current pairing code.
   */
  lemma {:induction false} TokenValidExactly(config: Option<seq<Record>>, issued: seq<Record>, p: nat,
                                             code: Option<PairingCode>, expiryMinutes: nat, now: int)
    requires var all := History(config, issued);
             p < |all| && forall i :: 0 <= i < |all| && i != p ==> all[i].token != all[p].token
    ensures var all := History(config, issued); var token := all[p].token;
            CredentialOf(code, AddedAll(Loaded(config), issued).memory, token, expiryMinutes, now) ==
            TokenCredential <==>
            && (|all| - 1 - p < 100 || issued == [])
            && now <= all[p].issuedAt + 2_592_000_000
            && !(code.Some? && token == code.value.code && now <= code.value.issuedAt + expiryMinutes * 60_000)
  {
    var all := History(config, issued);
    assert all == Loaded(config).memory + issued;
    if issued == [] {
      assert Newest(all, |all|) == all == Loaded(config).memory;
      NewestVerifies(all, p, |all|, now);
    } else {
      ListIsNewestHundred(config, issued);
      NewestVerifies(all, p, MAX_CONNECTION_TOKENS, now);
    }
  }

  /** For an issued token: exactly when fewer than a hundred were issued after it, and so on. */
  lemma {:induction false} IssuedTokenValidExactly(config: Option<seq<Record>>, issued: seq<Record>, k: nat,
                                                   code: Option<PairingCode>, expiryMinutes: nat, now: int)
    requires k < |issued|
    requires var all := History(config, issued);
             forall i :: 0 <= i < |all| && i != |all| - |issued| + k ==> all[i].token != issued[k].token
    ensures CredentialOf(code, AddedAll(Loaded(config), issued).memory, issued[k].token, expiryMinutes, now) ==
            TokenCredential <==>
            && |issued| - 1 - k < 100
            && now <= issued[k].issuedAt + 2_592_000_000
            && !(code.Some? && issued[k].token == code.value.code &&
                 now <= code.value.issuedAt + expiryMinutes * 60_000)
  {
    var all := History(config, issued);
    assert all[|all| - |issued| + k] == issued[k];
    TokenValidExactly(config, issued, |all| - |issued| + k, code, expiryMinutes, now);
  }

  /** A restart loses nothing: what the configuration holds is what validated before. */
  lemma {:induction false} RestartKeepsTokens(config: Option<seq<Record>>, issued: seq<Record>)
    ensures Loaded(AddedAll(Loaded(config), issued).config).memory == AddedAll(Loaded(config), issued).memory
  {
    if issued != [] {
      RestartKeepsTokens(config, issued[..|issued|-1]);
    }
  }

  /** The live credentials of a running service. */
  class ConnectionState {
    var pairingCode: Option<PairingCode>
    var tokens: seq<Record>
    var configTokens: Option<seq<Record>>
    const expiryMinutes: nat

    function Current(): Tokens
      reads this
    {
      Tokens(tokens, configTokens)
    }

    constructor (config: Option<seq<Record>>, expiryMinutes: nat)
      ensures Current() == Loaded(config) && pairingCode == None && this.expiryMinutes == expiryMinutes
    {
      tokens := if config.Some? then config.value else [];
      configTokens := config;
      pairingCode := None;
      this.expiryMinutes := expiryMinutes;
    }

    /** `drawn` is the freshly generated code. */
    method IssuePairingCode(drawn: string, now: int)
      modifies this`pairingCode
      ensures pairingCode == Some(PairingCode(drawn, now))
    {
      pairingCode := Some(PairingCode(drawn, now));
    }

    /** Whatever code this returns is one that validates at this very moment. */
    method RotatePairingCodeIfExpired(drawn: string, now: int) returns (code: string)
      modifies this`pairingCode
      ensures CredentialOf(pairingCode, tokens, code, expiryMinutes, now) == CodeCredential
      ensures var was := old(pairingCode);
              if was.Some? && now < was.value.issuedAt + expiryMinutes * 60_000
              then pairingCode == was && code == was.value.code
              else pairingCode == Some(PairingCode(drawn, now)) && code == drawn
    {
      var expired := pairingCode.None? || CodeExpired(pairingCode.value, expiryMinutes, now);
      if expired {
        IssuePairingCode(drawn, now);
        code := drawn;
      } else {
        code := pairingCode.value.code;
      }
    }

    method ValidateCredential(credential: string, now: int) returns (kind: CredentialKind)
      ensures kind == CredentialOf(pairingCode, tokens, credential, expiryMinutes, now)
      ensures kind.CodeCredential? <==>
              && pairingCode.Some? && credential == pairingCode.value.code
              && now <= pairingCode.value.issuedAt + expiryMinutes * 60_000
      ensures kind.TokenCredential? ==>
                exists r :: r in tokens && r.token == credential && now <= r.issuedAt + 2_592_000_000
      ensures kind.Invalid? ==> forall r :: r in tokens && r.token == credential ==> now > r.issuedAt + 2_592_000_000
    {
      CredentialDecided(pairingCode, tokens, credential, expiryMinutes, now);
      if pairingCode.Some? && VerifyPairingCode(pairingCode.value, credential, expiryMinutes, now) {
        return CodeCredential;
      }
      var i := 0;
      while i < |tokens|
        invariant 0 <= i <= |tokens|
        invariant forall j :: 0 <= j < i ==>
                    !(tokens[j].token == credential && now - tokens[j].issuedAt <= CONNECTION_TOKEN_TTL)
      {
        if tokens[i].token == credential && now - tokens[i].issuedAt <= CONNECTION_TOKEN_TTL {
          assert tokens[i] in tokens;
          return TokenCredential;
        }
        i := i + 1;
      }
      return Invalid;
    }

    method AddConnectionToken(token: string, now: int)
      modifies this`tokens, this`configTokens
      ensures Current() == Added(old(Current()), Record(token, now))
    {
      tokens := tokens + [Record(token, now)];
      if |tokens| > MAX_CONNECTION_TOKENS {
        var excess := |tokens| - MAX_CONNECTION_TOKENS;
        tokens := tokens[excess..];
      }
      configTokens := Some(tokens);
    }
  }
}
