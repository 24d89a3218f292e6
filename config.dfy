/** CryptoAppProperties: the deployment environment setting and the
    "is this production?" decision that the coin cache and the auth cookies
    consult on every call. */
module Config {
  import opened Common

  /** The value the `environment` property has when it is not configured. */
  const DefaultEnvironment: string := "development"

  const Production: string := "production"

  /** isProduction: the environment equals "production" ignoring case. The
      property is settable, so callers pass the environment current at the
      time of each call. */
  predicate IsProduction(environment: string)
  {
    EqualsIgnoreCase(environment, Production)
  }

  /** Exactly the spellings of "production" that differ only in letter case
      are production; anything else, including a prefix such as "prod", is not. */
  lemma IsProductionExactly(environment: string)
    ensures IsProduction(environment) <==>
      |environment| == |Production| &&
      forall i :: 0 <= i < |environment| ==> LowerChar(environment[i]) == Production[i]
  {
    if IsProduction(environment) {
      assert |Lower(environment)| == |Lower(Production)|;
      forall i | 0 <= i < |environment|
        ensures LowerChar(environment[i]) == Production[i]
      {
        assert Lower(environment)[i] == Lower(Production)[i];
      }
    } else if |environment| == |Production| {
      assert Lower(environment) != Lower(Production);
      var i :| 0 <= i < |environment| && Lower(environment)[i] != Lower(Production)[i];
      assert LowerChar(environment[i]) != Production[i];
    }
  }

  /** The default configuration is not production; "Production" is and "prod"
      is not. */
  lemma DefaultIsNotProduction()
    ensures !IsProduction(DefaultEnvironment)
    ensures IsProduction("Production") && IsProduction("PRODUCTION")
    ensures !IsProduction("prod")
  {
    IsProductionExactly(DefaultEnvironment);
    IsProductionExactly("Production");
    IsProductionExactly("PRODUCTION");
    IsProductionExactly("prod");
  }
}
