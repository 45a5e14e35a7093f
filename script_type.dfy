/** The locking-script types the classifier distinguishes, the string handling
    that builds its reason labels, and the per-output classification table
    (the `switch (scriptType)` of the `/check/:address` handler). */
module ScriptTypes {
  import opened JsStrings

  /** A `scriptpubkey_type` as the explorer reports it. `Other` holds every
      string the classifier does not single out. */
  datatype ScriptType = P2PK | P2TR | P2PKH | P2WPKH | Other(name: string)
  {
    /** The explorer's string for this type. */
    function Name(): string {
      match this
      case P2PK => "p2pk"
      case P2TR => "p2tr"
      case P2PKH => "p2pkh"
      case P2WPKH => "v0_p2wpkh"
      case Other(n) => n
    }

    /** `Other` never stands for one of the four named types. */
    predicate WellFormed() {
      Other? ==> !IsKnownName(name)
    }

    /** The output script embeds the public key itself. */
    predicate EmbedsKey() {
      P2PK? || P2TR?
    }

    /** The output script commits only to a hash of the public key. */
    predicate HashesKey() {
      P2PKH? || P2WPKH?
    }
  }

  predicate IsKnownName(s: string) {
    s == "p2pk" || s == "p2tr" || s == "p2pkh" || s == "v0_p2wpkh"
  }

  /** Reads the explorer's string; the round trip back to the string is exact. */
  function Parse(s: string): (t: ScriptType)
    ensures t.WellFormed()
    ensures t.Name() == s
    ensures t.Other? <==> !IsKnownName(s)
  {
    if s == "p2pk" then P2PK
    else if s == "p2tr" then P2TR
    else if s == "p2pkh" then P2PKH
    else if s == "v0_p2wpkh" then P2WPKH
    else Other(s)
  }

  /** The other half of the round trip: a well-formed type survives printing and parsing. */
  lemma ParseName(t: ScriptType)
    requires t.WellFormed()
    ensures Parse(t.Name()) == t
  {
  }

  /** The label the reason strings start with:
      `scriptType.toUpperCase().replace('V0_', '')`. It is never longer than
      the name, and a name without "V0_" is only upper-cased. */
  function DisplayLabel(name: string): (r: string)
    ensures |r| <= |name|
    ensures !Contains(ToUpper(name), "V0_") ==> r == ToUpper(name)
  {
    var up := ToUpper(name);
    RemoveFirstIdentityUnlessPresent(up, "V0_");
    RemoveFirst(up, "V0_")
  }

  /** The two hash-based types are labelled "P2PKH" and "P2WPKH". */
  lemma HashLabels()
    ensures DisplayLabel(P2PKH.Name()) == "P2PKH"
    ensures DisplayLabel(P2WPKH.Name()) == "P2WPKH"
  {
    P2pkhLabel();
    P2wpkhLabel();
  }

  lemma P2pkhLabel()
    ensures DisplayLabel("p2pkh") == "P2PKH"
  {
    var up := ToUpper("p2pkh");
    assert up == "P2PKH" by {
      assert forall i :: 0 <= i < 5 ==> up[i] == "P2PKH"[i];
    }
    assert RemoveFirst("KH", "V0_") == "KH";
    assert RemoveFirst("PKH", "V0_") == "PKH" by {
      assert "PKH"[..3] != "V0_" by { assert "PKH"[0] != 'V'; }
      assert "PKH"[1..] == "KH";
    }
    assert RemoveFirst("2PKH", "V0_") == "2PKH" by {
      assert "2PKH"[..3] != "V0_" by { assert "2PKH"[0] != 'V'; }
      assert "2PKH"[1..] == "PKH";
    }
    assert RemoveFirst("P2PKH", "V0_") == "P2PKH" by {
      assert "P2PKH"[..3] != "V0_" by { assert "P2PKH"[0] != 'V'; }
      assert "P2PKH"[1..] == "2PKH";
    }
  }

  lemma P2wpkhLabel()
    ensures DisplayLabel("v0_p2wpkh") == "P2WPKH"
  {
    var up := ToUpper("v0_p2wpkh");
    assert up[..3] == "V0_" by {
      assert up[0] == 'V' && up[1] == '0' && up[2] == '_';
    }
    assert up[3..] == "P2WPKH" by {
      assert up[3] == 'P' && up[4] == '2' && up[5] == 'W';
      assert up[6] == 'P' && up[7] == 'K' && up[8] == 'H';
    }
  }

  // ---------------------------------------------------------------------------
  // The classification table

  datatype Classification = Classification(isVulnerable: bool, reason: string)

  const P2pkReason := "P2PK: Public key is directly in the script."
  const P2trReason := "P2TR (Taproot): Public key is part of the output script."
  const UnknownPrefix := "Script type '"
  const UnknownSuffix := "' is not checked or is considered safe."
  const RevealedSentence := ": Public key was revealed in a previous transaction from this address."
  const SafeSentence := ": Safe, as long as no funds are spent from this address."

  /** The verdict for one output of type `t`, given whether the address's
      public key has already appeared on-chain. */
  function Classify(t: ScriptType, revealed: bool): Classification {
    match t
    case P2PK => Classification(true, P2pkReason)
    case P2TR => Classification(true, P2trReason)
    case P2PKH | P2WPKH =>
      if revealed then Classification(true, DisplayLabel(t.Name()) + RevealedSentence)
      else Classification(false, DisplayLabel(t.Name()) + SafeSentence)
    case Other(n) => Classification(false, UnknownPrefix + n + UnknownSuffix)
  }

  /** P2PK and P2TR outputs are vulnerable whatever the revealed flag says,
      their verdict does not depend on it at all, and each has a fixed reason. */
  lemma EmbeddedKeyAlwaysVulnerable(t: ScriptType, revealed: bool)
    requires t.EmbedsKey()
    ensures Classify(t, revealed).isVulnerable
    ensures Classify(t, revealed) == Classify(t, !revealed)
    ensures Classify(t, revealed).reason ==
      (if t.P2PK? then "P2PK: Public key is directly in the script."
       else "P2TR (Taproot): Public key is part of the output script.")
  {
  }

  /** P2PKH and P2WPKH outputs are vulnerable exactly when the key was revealed;
      the reason is "P2PKH" or "P2WPKH" followed by the matching sentence. */
  lemma HashedKeyVulnerableIffRevealed(t: ScriptType, revealed: bool)
    requires t.HashesKey()
    ensures Classify(t, revealed).isVulnerable == revealed
    ensures Classify(t, revealed).reason ==
      (if t.P2PKH? then "P2PKH" else "P2WPKH") + (if revealed then RevealedSentence else SafeSentence)
  {
    HashLabels();
  }

  /** Any other script type is reported safe, and the reason quotes its name. */
  lemma UnknownTypeNeverVulnerable(t: ScriptType, revealed: bool)
    requires t.Other?
    ensures !Classify(t, revealed).isVulnerable
    ensures Classify(t, revealed).reason == "Script type '" + t.name + "' is not checked or is considered safe."
  {
  }

  /** The revealed flag changes the verdict of exactly the hash-based types. */
  lemma RevealedFlagMattersOnlyForHashedKeys(t: ScriptType)
    ensures Classify(t, true) != Classify(t, false) <==> t.HashesKey()
  {
  }
}
