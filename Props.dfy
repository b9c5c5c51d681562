/**
 * Property lookup with a fixed precedence: JVM system property, then the
 * environment, then the registered custom providers. The system properties
 * and the environment are given as maps; the static provider list is the
 * state of a `Props` object.
 */
module Props {
  import opened Wrappers
  import opened Text

  /** A custom provider: answers a property name with a value or null. */
  type Provider = string -> Option<string>

  /** Guava's Strings.isNullOrEmpty. */
  predicate IsNullOrEmpty(v: Option<string>) {
    v.None? || v.value == ""
  }

  function Get(m: map<string, string>, name: string): Option<string> {
    if name in m then Some(m[name]) else None
  }

  /** The first non-null answer of the providers, in registration order. */
  function FirstAnswer(providers: seq<Provider>, name: string): (r: Option<string>)
    ensures r.None? <==> forall i :: 0 <= i < |providers| ==> providers[i](name).None?
    ensures r.Some? ==> exists i :: 0 <= i < |providers| && providers[i](name) == r
                                    && forall j :: 0 <= j < i ==> providers[j](name).None?
  {
    if |providers| == 0 then None
    else if providers[0](name).Some? then providers[0](name)
    else
      var r := FirstAnswer(providers[1..], name);
      assert forall i :: 1 <= i < |providers| ==> providers[i] == providers[1..][i - 1];
      r
  }

  class Props {
    var customProps: seq<Provider>

    constructor ()
      ensures customProps == []
    {
      customProps := [];
    }

    /** setCustomProps: registers one more provider, after the existing ones. */
    method SetCustomProps(provider: Provider)
      modifies this
      ensures customProps == old(customProps) + [provider]
    {
      customProps := customProps + [provider];
    }

    /** The value the precedence chain finds before the absence check. */
    function Lookup(name: string, sys: map<string, string>, env: map<string, string>): (v: Option<string>)
      reads this
      ensures !IsNullOrEmpty(Get(sys, name)) ==> v == Get(sys, name)
      ensures IsNullOrEmpty(Get(sys, name)) && !IsNullOrEmpty(Get(env, name)) ==> v == Get(env, name)
      ensures IsNullOrEmpty(Get(sys, name)) && IsNullOrEmpty(Get(env, name))
              ==> v == FirstAnswer(customProps, name)
    {
      var value := Get(sys, name);
      if !IsNullOrEmpty(value) then value
      else
        var fromEnv := Get(env, name);
        if !IsNullOrEmpty(fromEnv) then fromEnv else FirstAnswer(customProps, name)
    }

    /**
     * getProperty(name, description, default, throwOnAbsent): the looked-up
     * value when it is non-empty; otherwise IllegalArgumentException when
     * throwOnAbsent, and the default when not.
     */
    function GetProperty(name: string, description: string, default: Option<string>, throwOnAbsent: bool,
                         sys: map<string, string>, env: map<string, string>): (r: Result<Option<string>>)
      reads this
      ensures r.Err? <==> throwOnAbsent && IsNullOrEmpty(Lookup(name, sys, env))
      ensures r.Err? ==> r.error == IllegalArgument
      ensures r.Ok? && !IsNullOrEmpty(Lookup(name, sys, env)) ==> r.value == Lookup(name, sys, env)
      ensures r.Ok? && IsNullOrEmpty(Lookup(name, sys, env)) ==> r.value == default
    {
      var value := Lookup(name, sys, env);
      if !IsNullOrEmpty(value) then Ok(value)
      else if throwOnAbsent then Err(IllegalArgument)
      else Ok(default)
    }

    /** getProperty(name, description, default): throws on absence iff the default is null. */
    function GetPropertyOrDefault(name: string, description: string, default: Option<string>,
                                  sys: map<string, string>, env: map<string, string>): (r: Result<Option<string>>)
      reads this
      ensures r.Err? <==> default.None? && IsNullOrEmpty(Lookup(name, sys, env))
      ensures r.Ok? ==> (r.value.Some? <==> default.Some? || !IsNullOrEmpty(Lookup(name, sys, env)))
    {
      GetProperty(name, description, default, default.None?, sys, env)
    }

    /** getSilent(name, default): never throws; the found value, else the default. */
    function GetSilentOr(name: string, default: Option<string>,
                         sys: map<string, string>, env: map<string, string>): (r: Result<Option<string>>)
      reads this
      ensures r.Ok?
      ensures r.value == if IsNullOrEmpty(Lookup(name, sys, env)) then default else Lookup(name, sys, env)
    {
      GetProperty(name, name, default, false, sys, env)
    }

    /** getSilent(name): never throws; the found value, else null. */
    function GetSilent(name: string, sys: map<string, string>, env: map<string, string>): (r: Result<Option<string>>)
      reads this
      ensures r.Ok?
      ensures r.value.None? <==> IsNullOrEmpty(Lookup(name, sys, env))
      ensures r.value.Some? ==> r.value == Lookup(name, sys, env)
    {
      GetProperty(name, "", None, false, sys, env)
    }

    /**
     * getList(name): the silent value split on ';', each piece trimmed and
     * empty pieces dropped. An absent property reaches the splitter as null,
     * which throws NullPointerException.
     */
    function GetList(name: string, sys: map<string, string>, env: map<string, string>): (r: Result<seq<string>>)
      reads this
      ensures r.Err? <==> IsNullOrEmpty(Lookup(name, sys, env))
      ensures r.Err? ==> r.error == NullPointer
      ensures r.Ok? ==> r.value == TrimOmitEmpty(Split(Lookup(name, sys, env).value, ';'))
      ensures r.Ok? ==> forall k :: 0 <= k < |r.value| ==> |r.value[k]| > 0 && ';' !in r.value[k]
    {
      var v := GetSilent(name, sys, env).value;
      if v.None? then Err(NullPointer)
      else
        var pieces := Split(v.value, ';');
        TrimOmitEmptyKeepsNoSeparator(pieces, ';');
        Ok(TrimOmitEmpty(pieces))
    }
  }

  /** Trimming and dropping empty pieces never introduces a separator. */
  lemma {:induction false} TrimOmitEmptyKeepsNoSeparator(pieces: seq<string>, sep: char)
    requires forall k :: 0 <= k < |pieces| ==> NoneIn(pieces[k], {sep})
    ensures forall k :: 0 <= k < |TrimOmitEmpty(pieces)| ==> sep !in TrimOmitEmpty(pieces)[k]
  {
    if |pieces| > 0 {
      TrimOmitEmptyKeepsNoSeparator(pieces[1..], sep);
      TrimmedIsInfix(pieces[0], IsGuavaSpace);
    }
  }

  lemma TrimmedIsInfix(s: string, p: char -> bool)
    ensures forall c :: c in TrimBy(s, p) ==> c in s
  {
    var e := TrimEnd(s, p);
    assert forall c :: c in TrimStart(e, p) ==> c in e;
  }

  /** A later registration never overrides an earlier provider's answer. */
  lemma {:induction false} EarlierProviderWins(providers: seq<Provider>, extra: Provider, name: string)
    requires FirstAnswer(providers, name).Some?
    ensures FirstAnswer(providers + [extra], name) == FirstAnswer(providers, name)
  {
    if providers[0](name).None? {
      assert (providers + [extra])[1..] == providers[1..] + [extra];
      EarlierProviderWins(providers[1..], extra, name);
    }
  }
}
