/** The settings dialog: a form holding the provider, the API key, an
    optional model name and an optional base URL, checked on submit. */
module ApiKeyModal {
  import opened Types
  import Strings

  const ApiKeyRequiredMessage := "API Key is required"

  /** What the dialog hands to the app on a successful submit. */
  datatype SaveRequest = SaveRequest(apiKey: string, provider: string, modelName: string, baseURL: string)

  class ApiKeyForm {
    var apiKey: string
    var provider: string
    var modelName: string
    var baseURL: string
    var error: string

    /** The form starts from the values passed in, with no error shown. */
    constructor (initialKey: string, initialProvider: string, initialModelName: string, initialBaseURL: string)
      ensures apiKey == initialKey && provider == initialProvider
      ensures modelName == initialModelName && baseURL == initialBaseURL && error == ""
    {
      apiKey := initialKey;
      provider := initialProvider;
      modelName := initialModelName;
      baseURL := initialBaseURL;
      error := "";
    }

    /** The effect that copies new initial values into the form; a shown
      error stays. */
    method SyncProps(initialKey: string, initialProvider: string, initialModelName: string, initialBaseURL: string)
      modifies this
      ensures apiKey == initialKey && provider == initialProvider
      ensures modelName == initialModelName && baseURL == initialBaseURL && error == old(error)
    {
      apiKey := initialKey;
      provider := initialProvider;
      modelName := initialModelName;
      baseURL := initialBaseURL;
    }

    /** Typing in the key field replaces the key and clears the error. */
    method EditApiKey(value: string)
      modifies this
      ensures apiKey == value && error == ""
      ensures provider == old(provider) && modelName == old(modelName) && baseURL == old(baseURL)
    {
      apiKey := value;
      error := "";
    }

    /** One of the two provider buttons. */
    method SelectProvider(choice: string)
      requires choice == "gemini" || choice == "openai"
      modifies this
      ensures provider == choice
      ensures apiKey == old(apiKey) && modelName == old(modelName) && baseURL == old(baseURL) && error == old(error)
    {
      provider := choice;
    }

    /** Typing in the model name field; the error stays. */
    method EditModelName(value: string)
      modifies this
      ensures modelName == value
      ensures apiKey == old(apiKey) && provider == old(provider) && baseURL == old(baseURL) && error == old(error)
    {
      modelName := value;
    }

    /** Typing in the base URL field; the error stays. */
    method EditBaseURL(value: string)
      modifies this
      ensures baseURL == value
      ensures apiKey == old(apiKey) && provider == old(provider) && modelName == old(modelName) && error == old(error)
    {
      baseURL := value;
    }

    /** `!apiKey.trim()`: the save button is disabled exactly while the key
      is blank, which is exactly when a submit would be refused. */
    function SubmitDisabled(): (disabled: bool)
      reads this
      ensures disabled <==> Strings.AllWhitespace(apiKey)
    {
      Strings.Trim(apiKey) == ""
    }

    /** `handleSubmit`: a blank key shows the required-key error and saves
      nothing; otherwise the trimmed values are handed over (the base URL
      too, even while its field is hidden) and the error is cleared. The
      fields themselves keep what was typed. */
    method HandleSubmit() returns (request: Option<SaveRequest>)
      modifies this
      ensures request.None? <==> Strings.AllWhitespace(old(apiKey))
      ensures request.None? ==> error == ApiKeyRequiredMessage
      ensures request.Some? ==> error == "" && request.value == SaveRequest(
        Strings.Trim(old(apiKey)), old(provider), Strings.Trim(old(modelName)), Strings.Trim(old(baseURL)))
      ensures apiKey == old(apiKey) && provider == old(provider)
      ensures modelName == old(modelName) && baseURL == old(baseURL)
    {
      var key, model, url := Strings.Trim(apiKey), Strings.Trim(modelName), Strings.Trim(baseURL);
      if key == "" {
        error := ApiKeyRequiredMessage;
        request := None;
      } else {
        request := Some(SaveRequest(key, provider, model, url));
        error := "";
      }
    }
  }

  /** What a submit hands over is always a usable key: non-empty, with no
      whitespace at either end, and trimming it again changes nothing. */
  lemma SubmittedKeyIsTrimmed(apiKey: string)
    requires !Strings.AllWhitespace(apiKey)
    ensures var key := Strings.Trim(apiKey);
      key != "" && !Strings.IsWhitespace(key[0]) && !Strings.IsWhitespace(key[|key| - 1])
      && Strings.Trim(key) == key
  {
    Strings.TrimEnds(apiKey);
    Strings.TrimIdempotent(apiKey);
  }
}
