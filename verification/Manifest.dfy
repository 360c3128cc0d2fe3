/** The release manifest and the configuration a rollback recreates from it. JSON text
    is represented by the value it decodes to, or by being malformed. */
module Manifest {
  import opened Options

  datatype Json = JNull | JNumber(n: int) | JString(s: string) | JObject(fields: map<string, Json>)

  datatype Text = Valid(value: Json) | Malformed(raw: string)

  type Vars = map<string, string>

  const EFFECTIVE := "effective_runtime_configuration"
  const OBSERVED := "observed_container_id"

  /** NonSecretRuntimeConfiguration: a JSON object of strings. */
  function EncodeVars(vars: Vars): Json {
    JObject(map name | name in vars :: JString(vars[name]))
  }

  /** Decoding into a Go map[string]string: null leaves an empty string, and anything but
      a string is an error. */
  function DecodeVars(fields: map<string, Json>): Option<Vars> {
    if forall name :: name in fields ==> fields[name].JString? || fields[name].JNull?
    then Some(map name | name in fields :: if fields[name].JString? then fields[name].s else "")
    else None
  }

  lemma DecodeEncode(vars: Vars)
    ensures DecodeVars(EncodeVars(vars).fields) == Some(vars)
    ensures EncodeVars(vars).fields.Keys == vars.Keys && forall name :: name in vars ==> EncodeVars(vars).fields[name] == JString(vars[name])
  {
    assert DecodeVars(EncodeVars(vars).fields).value == vars;
  }

  /** The manifest extended with the public configuration and the observed container.
      `effective` None is the empty string. */
  function ReleaseManifest(manifest: Text, effective: Option<Text>, observed: string): Text {
    var base := if manifest.Valid? && manifest.value.JObject? then manifest.value.fields else map["version" := JNumber(1)];
    if effective.Some? && effective.value.Malformed? then manifest else
    var configured := if effective.Some? then base[EFFECTIVE := effective.value.value] else base;
    Valid(JObject(if observed != "" then configured[OBSERVED := JString(observed)] else configured))
  }

  datatype ManifestError = Unreadable | NoConfiguration

  datatype Recorded = Recorded(vars: Vars) | Missing(error: ManifestError)

  /** The public runtime configuration a manifest records. */
  function RecordedVars(manifest: Text): Recorded {
    match manifest
    case Malformed(_) => Missing(Unreadable)
    case Valid(JNull) => Missing(NoConfiguration)
    case Valid(JObject(fields)) =>
      if EFFECTIVE !in fields || fields[EFFECTIVE].JNull? then Missing(NoConfiguration) else
      if !fields[EFFECTIVE].JObject? then Missing(Unreadable) else
      (match DecodeVars(fields[EFFECTIVE].fields)
       case Some(vars) => Recorded(vars)
       case None => Missing(Unreadable))
    case _ => Missing(Unreadable)
  }

  /** Whatever the manifest was before, what it records afterwards is exactly the public
      configuration it was given; every other field of a readable manifest is kept. */
  lemma ManifestRecords(manifest: Text, vars: Vars, observed: string)
    ensures RecordedVars(ReleaseManifest(manifest, Some(Valid(EncodeVars(vars))), observed)) == Recorded(vars)
    ensures manifest.Valid? && manifest.value.JObject? ==>
              var fields := ReleaseManifest(manifest, Some(Valid(EncodeVars(vars))), observed).value.fields;
              forall name :: name in manifest.value.fields && name !in {EFFECTIVE, OBSERVED} ==>
                name in fields && fields[name] == manifest.value.fields[name]
  {
  }

  /** The whole manifest, field by field: a configuration that is no JSON leaves it as it
      is; else an unreadable one starts over at version 1, the configuration and the
      observed container are recorded if there are any, and nothing else changes. */
  lemma ManifestExactly(manifest: Text, effective: Option<Text>, observed: string, name: string)
    ensures effective.Some? && effective.value.Malformed? ==> ReleaseManifest(manifest, effective, observed) == manifest
    ensures !(effective.Some? && effective.value.Malformed?) ==>
              var r := ReleaseManifest(manifest, effective, observed);
              var readable := manifest.Valid? && manifest.value.JObject?;
              && r.Valid? && r.value.JObject?
              && (name in r.value.fields <==>
                    || (name == "effective_runtime_configuration" && effective.Some?)
                    || (name == "observed_container_id" && observed != "")
                    || (if readable then name in manifest.value.fields else name == "version"))
              && (name in r.value.fields ==>
                    r.value.fields[name] ==
                      if name == "observed_container_id" && observed != "" then JString(observed)
                      else if name == "effective_runtime_configuration" && effective.Some? then effective.value.value
                      else if readable then manifest.value.fields[name] else JNumber(1))
  {
  }

  /** What can be read back: nothing from text that is no JSON object or null, no
      configuration where the field is missing or null, and else a map of strings, in
      which null reads as the empty string. */
  lemma RecordedExactly(manifest: Text)
    ensures RecordedVars(manifest) == Missing(NoConfiguration) <==>
              && manifest.Valid?
              && (manifest.value.JNull?
                  || (manifest.value.JObject?
                      && ("effective_runtime_configuration" in manifest.value.fields ==>
                            manifest.value.fields["effective_runtime_configuration"].JNull?)))
    ensures RecordedVars(manifest).Recorded? <==>
              && manifest.Valid? && manifest.value.JObject? && "effective_runtime_configuration" in manifest.value.fields
              && var effective := manifest.value.fields["effective_runtime_configuration"];
                 effective.JObject? && forall n :: n in effective.fields ==> effective.fields[n].JString? || effective.fields[n].JNull?
    ensures RecordedVars(manifest).Recorded? ==>
              var fields := manifest.value.fields["effective_runtime_configuration"].fields;
              && RecordedVars(manifest).vars.Keys == fields.Keys
              && forall n :: n in fields ==> RecordedVars(manifest).vars[n] == if fields[n].JString? then fields[n].s else ""
  {
  }

  // ---- Configurations ----

  /** PublicConfigurationDigest, as the pair it is computed from. */
  datatype Digest = Digest(runtime: Vars, buildArgs: Vars)

  /** The runtime environment after a rollback: the current public names go, the recorded
      ones take their place. */
  function RolledBack(runtime: Vars, public: Vars, recorded: Vars): Vars {
    (runtime - public.Keys) + recorded
  }

  /** Starting from a release environment, public values overlaid with secrets, a rollback
      yields the recorded values, drops every other public name, and keeps a secret that
      is not recorded exactly when no public value shares its name. */
  lemma RollbackRuntimeExactly(public: Vars, secrets: Vars, recorded: Vars, name: string)
    ensures var runtime := RolledBack(public + secrets, public, recorded);
            && (name in recorded ==> name in runtime && runtime[name] == recorded[name])
            && (name !in recorded && name in secrets ==>
                 ((name in runtime && runtime[name] == secrets[name]) <==> name !in public))
            && (name !in recorded && name !in secrets ==> name !in runtime)
  {
  }

  /** With secret and public names disjoint, the environment is the current secrets under
      the recorded public configuration. */
  lemma RollbackKeepsSecrets(public: Vars, secrets: Vars, recorded: Vars)
    requires public.Keys !! secrets.Keys
    ensures RolledBack(public + secrets, public, recorded) == secrets + recorded
  {
  }

  /** A Go map: a mutable object that can be shared. */
  class Variables {
    var values: Vars

    constructor ()
      ensures values == map[]
    {
      values := map[];
    }
  }

  /** for name, value := range src { dst[name] = value }, in any order. */
  method CopyInto(dst: Variables, src: Vars)
    modifies dst
    ensures dst.values == old(dst.values) + src
  {
    var rest := src.Keys;
    while rest != {}
      invariant rest <= src.Keys
      invariant dst.values == old(dst.values) + map name | name in src && name !in rest :: src[name]
    {
      var name :| name in rest;
      dst.values := dst.values[name := src[name]];
      rest := rest - {name};
    }
    assert (map name | name in src && name !in rest :: src[name]) == src;
  }

  /** for name := range names { delete(dst, name) }. */
  method DeleteNames(dst: Variables, names: set<string>)
    modifies dst
    ensures dst.values == old(dst.values) - names
  {
    var rest := names;
    while rest != {}
      invariant rest <= names
      invariant dst.values == old(dst.values) - (names - rest)
    {
      var name :| name in rest;
      dst.values := dst.values - {name};
      rest := rest - {name};
    }
    assert names - rest == names;
  }

  class Configuration {
    var runtime: Variables
    var publicRuntime: Variables
    var buildArgs: Vars
    var buildSecrets: Vars
    var digest: Digest
    var effective: Json

    constructor (runtime: Variables, publicRuntime: Variables, buildArgs: Vars, buildSecrets: Vars, digest: Digest, effective: Json)
      ensures this.runtime == runtime && this.publicRuntime == publicRuntime && this.buildArgs == buildArgs
      ensures this.buildSecrets == buildSecrets && this.digest == digest && this.effective == effective
    {
      this.runtime, this.publicRuntime, this.buildArgs := runtime, publicRuntime, buildArgs;
      this.buildSecrets, this.digest, this.effective := buildSecrets, digest, effective;
    }
  }

  /** App.deploymentConfiguration over the stored values. Secrets that cannot be decrypted
      (None) are an error. The digest, the recorded configuration and the public map are
      functions of the public values alone, although the runtime map is later overlaid
      with secrets. */
  method DeploymentConfiguration(public: Vars, buildArgs: Vars, buildSecrets: Option<Vars>, runtimeSecrets: Option<Vars>)
    returns (c: Configuration?)
    ensures c == null <==> buildSecrets == None || runtimeSecrets == None
    ensures c != null ==> fresh(c) && fresh(c.runtime) && fresh(c.publicRuntime) && c.runtime != c.publicRuntime
    ensures c != null ==> c.digest == Digest(public, buildArgs) && c.effective == EncodeVars(public)
    ensures c != null ==> c.publicRuntime.values == public && c.runtime.values == public + runtimeSecrets.value
    ensures c != null ==> c.buildArgs == buildArgs && c.buildSecrets == buildSecrets.value
  {
    var runtime := new Variables();
    CopyInto(runtime, public);
    var digest := Digest(runtime.values, buildArgs);
    var effective := EncodeVars(runtime.values);
    var publicRuntime := new Variables();
    CopyInto(publicRuntime, runtime.values);
    if buildSecrets == None || runtimeSecrets == None {
      return null;
    }
    CopyInto(runtime, runtimeSecrets.value);
    assert map[] + public == public;
    c := new Configuration(runtime, publicRuntime, buildArgs, buildSecrets.value, digest, effective);
  }

  /** The rollback edits the runtime map in place and replaces the public one; an error
      leaves both as they were. */
  method RollbackConfiguration(c: Configuration, manifest: Text) returns (error: Option<ManifestError>)
    requires c.runtime != c.publicRuntime
    modifies c, c.runtime
    ensures error == match RecordedVars(manifest) case Recorded(_) => None case Missing(e) => Some(e)
    ensures error.Some? ==> unchanged(c) && unchanged(c.runtime)
    ensures error.None? ==>
              var recorded := RecordedVars(manifest).vars;
              && c.runtime == old(c.runtime)
              && c.runtime.values == RolledBack(old(c.runtime.values), old(c.publicRuntime.values), recorded)
              && fresh(c.publicRuntime) && c.publicRuntime.values == recorded
              && c.effective == EncodeVars(recorded) && c.digest == Digest(recorded, old(c.buildArgs))
              && c.buildArgs == old(c.buildArgs) && c.buildSecrets == old(c.buildSecrets)
  {
    match RecordedVars(manifest)
    case Missing(e) =>
      return Some(e);
    case Recorded(vars) =>
      DeleteNames(c.runtime, c.publicRuntime.values.Keys);
      var publicRuntime := new Variables();
      CopyInto(publicRuntime, vars);
      CopyInto(c.runtime, vars);
      c.publicRuntime := publicRuntime;
      assert map[] + vars == vars;
      c.effective := EncodeVars(vars);
      c.digest := Digest(vars, c.buildArgs);
      return None;
  }
}
