/**
 * Chaincase.UI/ViewModels/BackUpViewModel.cs: showing the seed words for a back-up, and
 * migrating them from the legacy HSM entry into the password-protected store.
 *
 * The two stores are maps: `hsm` is the `IHsmStorage` (key to value) and `storage` is
 * `SensitiveStorage`, seen as seed words by password. `PasswordHelper.Guard` and
 * `KeyManager.FromFile(...).GetMasterExtKey(password)` are library calls; the model takes
 * the answer each gives for a password as a function (true where the call does not throw).
 */
module BackUp {
  import opened Wrappers
  import Text

  /** The suffix of the HSM key the seed words were kept under before the migration. */
  const SeedWordsSuffix: string := "-seedWords"

  /** `LegacyWordsLoc`: the network name followed by `-seedWords`. It is the key
      `NewPasswordViewModel.SetPassword` writes the words of a new wallet under. */
  function LegacyWordsLoc(network: string): (key: string)
    ensures |key| == |network| + |SeedWordsSuffix|
    ensures key[..|network|] == network && key[|network|..] == SeedWordsSuffix
  {
    network + SeedWordsSuffix
  }

  /** Two networks never share a legacy key, so a wallet never migrates another network's words. */
  lemma LegacyWordsLocInjective(a: string, b: string)
    requires LegacyWordsLoc(a) == LegacyWordsLoc(b)
    ensures a == b
  {
    assert |a| == |b|;
    assert a == LegacyWordsLoc(a)[..|a|];
  }

  /** `_hsm.GetAsync(key)`, with a missing entry read as null (`None`). */
  function Lookup(store: map<string, string>, key: string): Option<string> {
    if key in store then Some(store[key]) else None
  }

  /** `string.IsNullOrEmpty` */
  predicate IsNullOrEmpty(s: Option<string>) {
    s == None || s == Some("")
  }

  /** The exceptions `SetAlphaToBetaSeedWords` lets out. */
  datatype BackUpError =
    | PasswordRejected   // PasswordHelper.Guard threw
    | NoSeedWords        // the legacy entry is null or empty
    | WrongPassword      // GetMasterExtKey threw

  /** What the migration returns, in the order the source checks: the password guard,
      then the legacy entry, then the wallet password. */
  function MigrationOutcome(legacy: Option<string>, guardAccepts: bool, unlocksWallet: bool)
    : (r: Result<string, BackUpError>)
    ensures r.Success? <==> guardAccepts && !IsNullOrEmpty(legacy) && unlocksWallet
    ensures r.Success? ==> Some(r.value) == legacy && r.value != ""
    ensures !guardAccepts ==> r == Failure(PasswordRejected)
    ensures guardAccepts && IsNullOrEmpty(legacy) ==> r == Failure(NoSeedWords)
    ensures guardAccepts && !IsNullOrEmpty(legacy) && !unlocksWallet ==> r == Failure(WrongPassword)
  {
    if !guardAccepts then Failure(PasswordRejected)
    else if IsNullOrEmpty(legacy) then Failure(NoSeedWords)
    else if !unlocksWallet then Failure(WrongPassword)
    else Success(legacy.value)
  }

  /** `SeedWords = wordString.Split(' ')`: re-joining the words with a space gives the string back. */
  function SplitWords(wordString: string): (words: seq<string>)
    ensures |words| >= 1 && Text.Join(" ", words) == wordString
  {
    Text.JoinSplit(wordString, " ");
    Text.Split(wordString, " ")
  }

  class BackUpViewModel {
    const network: string
    /** `UiConfig.HasSeed` and `UiConfig.HasIntermediateKey` */
    var hasSeed: bool
    var hasIntermediateKey: bool
    /** `IHsmStorage` */
    var hsm: map<string, string>
    /** `SensitiveStorage`: the seed words stored under each password. */
    var storage: map<string, string>
    var isBusy: bool
    /** `SeedWords` (`None` while null) */
    var seedWords: Option<seq<string>>
    /** `PasswordHelper.Guard` does not throw for the password. */
    const guardAccepts: string -> bool
    /** `GetMasterExtKey(password)` on the wallet file does not throw. */
    const unlocksWallet: string -> bool

    constructor (network: string, hasSeed: bool, hasIntermediateKey: bool,
                 hsm: map<string, string>, storage: map<string, string>,
                 guardAccepts: string -> bool, unlocksWallet: string -> bool)
      ensures this.network == network && this.hasSeed == hasSeed && this.hasIntermediateKey == hasIntermediateKey
      ensures this.hsm == hsm && this.storage == storage
      ensures this.guardAccepts == guardAccepts && this.unlocksWallet == unlocksWallet
      ensures !isBusy && seedWords == None
    {
      this.network := network;
      this.hasSeed := hasSeed;
      this.hasIntermediateKey := hasIntermediateKey;
      this.hsm := hsm;
      this.storage := storage;
      this.guardAccepts := guardAccepts;
      this.unlocksWallet := unlocksWallet;
      isBusy := false;
      seedWords := None;
    }

    /** `HasNoSeedWords`: neither a seed nor an intermediate key is recorded. */
    function HasNoSeedWords(): (r: bool)
      reads this
      ensures r <==> !hasSeed && !hasIntermediateKey
    {
      !hasSeed && !hasIntermediateKey
    }

    /** The `try` block of `SetAlphaToBetaSeedWords`: check the password, read the legacy
        entry, check the password against the wallet, then store the words under it. */
    method MigrateLegacyWords(password: string) returns (r: Result<string, BackUpError>)
      modifies this`storage
      ensures r == MigrationOutcome(Lookup(hsm, LegacyWordsLoc(network)), guardAccepts(password), unlocksWallet(password))
      ensures r.Success? ==> storage == old(storage)[password := r.value]
      ensures r.Failure? ==> storage == old(storage)
    {
      if !guardAccepts(password) {
        return Failure(PasswordRejected);
      }
      var legacy := Lookup(hsm, LegacyWordsLoc(network));
      if IsNullOrEmpty(legacy) {
        return Failure(NoSeedWords);
      }
      if !unlocksWallet(password) {
        return Failure(WrongPassword);
      }
      storage := storage[password := legacy.value];
      return Success(legacy.value);
    }

    /** `SetAlphaToBetaSeedWords`: the migration with `IsBusy` raised, and lowered again in
        `finally` whether it returned or threw. The HSM is only read. */
    method SetAlphaToBetaSeedWords(password: string) returns (r: Result<string, BackUpError>)
      modifies this`storage, this`isBusy
      ensures !isBusy
      ensures r == MigrationOutcome(Lookup(hsm, LegacyWordsLoc(network)), guardAccepts(password), unlocksWallet(password))
      ensures r.Success? ==> storage == old(storage)[password := r.value]
      ensures r.Failure? ==> storage == old(storage)
    {
      isBusy := true;
      r := MigrateLegacyWords(password);
      isBusy := false;
    }

    /** `InitSeedWords`: the words stored under the password, or, when there are none (null
        or empty), the migrated legacy words; a failed migration propagates and leaves
        `SeedWords` as it was. */
    method InitSeedWords(password: string) returns (r: Result<(), BackUpError>)
      modifies this`storage, this`isBusy, this`seedWords
      ensures var stored := Lookup(old(storage), password);
        && (!IsNullOrEmpty(stored) ==>
              r.Success? && storage == old(storage) && isBusy == old(isBusy)
              && seedWords == Some(SplitWords(stored.value)))
        && (IsNullOrEmpty(stored) ==>
              var m := MigrationOutcome(Lookup(hsm, LegacyWordsLoc(network)), guardAccepts(password), unlocksWallet(password));
              && !isBusy
              && (r.Success? <==> m.Success?)
              && (m.Success? ==> storage == old(storage)[password := m.value] && seedWords == Some(SplitWords(m.value)))
              && (m.Failure? ==> r == Failure(m.error) && storage == old(storage) && seedWords == old(seedWords)))
      ensures r.Success? ==> password in storage && seedWords.Some? && Text.Join(" ", seedWords.value) == storage[password]
    {
      var wordString := Lookup(storage, password);
      if IsNullOrEmpty(wordString) {
        var migrated := SetAlphaToBetaSeedWords(password);
        if migrated.Failure? {
          return Failure(migrated.error);
        }
        wordString := Some(migrated.value);
      }
      seedWords := Some(SplitWords(wordString.value));
      return Success(());
    }

    /** `IsPasswordValidAsync`: throws exactly when the password does not open the wallet;
        `IsBusy` is lowered in `finally` either way and nothing else changes. */
    method IsPasswordValid(password: string) returns (r: Result<(), BackUpError>)
      modifies this`isBusy
      ensures !isBusy
      ensures r.Success? <==> unlocksWallet(password)
      ensures r.Failure? ==> r.error == WrongPassword
    {
      isBusy := true;
      if unlocksWallet(password) {
        r := Success(());
      } else {
        r := Failure(WrongPassword);
      }
      isBusy := false;
    }
  }

  /** The words a new wallet's `SetPassword` writes to the HSM are the words a later
      migration on the same network stores under a password the wallet accepts. */
  lemma NewWalletWordsMigrate(hsm: map<string, string>, network: string, words: string)
    requires words != ""
    ensures MigrationOutcome(Lookup(hsm[LegacyWordsLoc(network) := words], LegacyWordsLoc(network)), true, true) == Success(words)
  {
  }
}
