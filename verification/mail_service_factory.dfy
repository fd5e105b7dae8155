/** The mail service factory: how the server-level email settings (and,
    optionally, a project's notification settings) become a configured
    email service, and how the connection of such a service is checked. */
module MailServiceFactory {
  import opened Common
  import opened JavaText

  // Server settings keys (`ServerSettingsEnum` attributes).
  const EnabledKey: string := "server.email.enabled"
  const HostKey: string := "server.email.host"
  const PortKey: string := "server.email.port"
  const ProtocolKey: string := "server.email.protocol"
  const AuthEnabledKey: string := "server.email.auth_enabled"
  const StartTlsEnabledKey: string := "server.email.star_tls_enabled"
  const SslEnabledKey: string := "server.email.ssl_enabled"
  const UsernameKey: string := "server.email.username"
  const PasswordKey: string := "server.email.password"
  const FromKey: string := "server.email.from"

  // Project notification keys (`ProjectAttributeEnum` attributes).
  const ProjectEmailEnabledKey: string := "notifications.enabled"
  const ProjectEmailFromKey: string := "notifications.from"

  /** Milliseconds before an SMTP connection attempt is abandoned. */
  const DefaultConnectionTimeout: int := 5000

  /** A stored server setting; its value may be `null`. */
  datatype ServerSettings = ServerSettings(key: string, value: Option<string>)

  /** The JavaMail properties the factory sets. `sslSocketFactory` stands for
      the pair "mail.smtp.socketFactory.class" = SSLSocketFactory and
      "mail.smtp.socketFactory.fallback" = "false". */
  datatype MailProperties = MailProperties(
    connectionTimeout: int,
    smtpAuth: bool,
    startTlsEnable: bool,
    sslSocketFactory: bool)

  datatype EmailService = EmailService(
    properties: MailProperties,
    host: Option<string>,
    port: int,
    protocol: Option<string>,
    from: Option<string>,
    username: Option<string>,
    password: Option<string>)

  // ---------------------------------------------------------------------
  // The settings map

  /** The settings collected into a map where the first value stored under a
      key wins; a `null` value anywhere is a `NullPointerException`, as
      `Collectors.toMap` rejects null values. */
  function SettingsMap(settings: seq<ServerSettings>): (r: Result<map<string, string>>)
    ensures r.Failure? <==> exists i :: 0 <= i < |settings| && settings[i].value.None?
    ensures r.Failure? ==> r.error == NullPointerException
    ensures r.Success? ==> r.value.Keys == set i | 0 <= i < |settings| :: settings[i].key
    decreases |settings|
  {
    if |settings| == 0 then
      Success(map[])
    else if settings[0].value.None? then
      Failure(NullPointerException)
    else
      match SettingsMap(settings[1..])
      case Failure(e) =>
        assert settings[1..][0] == settings[1];
        Failure(e)
      case Success(m) =>
        assert forall i :: 0 < i < |settings| ==> settings[i] == settings[1..][i - 1];
        Success(m[settings[0].key := settings[0].value.value])
  }

  /** Of several settings with the same key, the first one is the one used. */
  lemma {:induction false} SettingsFirstWins(settings: seq<ServerSettings>, i: int)
    requires SettingsMap(settings).Success?
    requires 0 <= i < |settings|
    requires forall j :: 0 <= j < i ==> settings[j].key != settings[i].key
    ensures settings[i].key in SettingsMap(settings).value
    ensures settings[i].value.Some? && SettingsMap(settings).value[settings[i].key] == settings[i].value.value
    decreases |settings|
  {
    if i > 0 {
      var tail := settings[1..];
      assert tail[i - 1] == settings[i];
      assert forall j :: 0 <= j < i - 1 ==> tail[j] == settings[j + 1];
      SettingsFirstWins(tail, i - 1);
    }
  }

  /** `config.get(key)`. */
  function Setting(config: map<string, string>, key: string): (r: Option<string>)
    ensures r.Some? <==> key in config
  {
    if key in config then Some(config[key]) else None
  }

  // ---------------------------------------------------------------------
  // SSL

  /** The SSL decision as the factory writes it: `toBoolean` is applied to
      the setting's NAME rather than to its value, so it never holds. */
  function SslAsWritten(config: map<string, string>): bool {
    ToBoolean(Some(SslEnabledKey))
  }

  /** The SSL decision as evidently intended: the setting's value. */
  function SslFromConfig(config: map<string, string>): bool {
    ToBoolean(Setting(config, SslEnabledKey))
  }

  /** As written, the SSL setting is ignored on every settings map: the
      decision is false even where the setting's value enables SSL. */
  lemma SslSettingIgnoredAsWritten(config: map<string, string>)
    ensures !SslAsWritten(config)
    ensures Setting(config, SslEnabledKey) == Some("true") ==> SslFromConfig(config)
  {
    assert LowerAsciiString("true") == "true";
  }

  // ---------------------------------------------------------------------
  // getEmailService(serverSettings)

  /** The service built from a settings map in which email is enabled;
      `ssl` is the decision whether to install the SSL socket factory. */
  function BuildService(config: map<string, string>, decrypt: string -> string, ssl: bool): (r: Result<EmailService>)
    ensures r.Failure? <==> ParseInt(Setting(config, PortKey)).None?
    ensures r.Failure? ==> r.error == NumberFormatException
    ensures r.Success? ==> Some(r.value.port) == ParseInt(Setting(config, PortKey))
    ensures r.Success? ==> r.value.properties.sslSocketFactory == ssl
  {
    var auth := ToBoolean(Setting(config, AuthEnabledKey));
    match ParseInt(Setting(config, PortKey))
    case None => Failure(NumberFormatException)
    case Some(port) =>
      var properties := MailProperties(
        DefaultConnectionTimeout,
        auth,
        auth && ToBoolean(Setting(config, StartTlsEnabledKey)),
        ssl);
      var password := if !auth then None else
        match Setting(config, PasswordKey)
        case Some(cipher) => Some(decrypt(cipher))
        case None => None;
      Success(EmailService(
        properties,
        Setting(config, HostKey),
        port,
        Setting(config, ProtocolKey),
        Setting(config, FromKey),
        if auth then Setting(config, UsernameKey) else None,
        password))
  }

  /** Email is enabled by the server settings. */
  predicate Enabled(config: map<string, string>) {
    |config| != 0 && ToBoolean(Setting(config, EnabledKey))
  }

  /** `getEmailService(serverSettings)` as evidently intended, with the SSL
      socket factory installed when the SSL setting's value enables it: no
      service unless email is enabled; otherwise one configured from the
      settings. A missing or malformed port is a `NumberFormatException`;
      `decrypt` is the password decryptor. */
  function GetEmailService(settings: seq<ServerSettings>, decrypt: string -> string): (r: Result<Option<EmailService>>)
    ensures r == Failure(NullPointerException) <==> SettingsMap(settings).Failure?
    ensures r.Success? && r.value.None? <==> SettingsMap(settings).Success? && !Enabled(SettingsMap(settings).value)
    ensures r == Failure(NumberFormatException) <==>
              SettingsMap(settings).Success? && Enabled(SettingsMap(settings).value)
              && ParseInt(Setting(SettingsMap(settings).value, PortKey)).None?
    ensures r.Success? && r.value.Some? ==>
              var config := SettingsMap(settings).value;
              var service := r.value.value;
              && Enabled(config)
              && service.properties.connectionTimeout == DefaultConnectionTimeout
              && (service.properties.smtpAuth <==> ToBoolean(Setting(config, AuthEnabledKey)))
              && (service.properties.startTlsEnable <==>
                    service.properties.smtpAuth && ToBoolean(Setting(config, StartTlsEnabledKey)))
              && (service.properties.sslSocketFactory <==> ToBoolean(Setting(config, SslEnabledKey)))
              && service.host == Setting(config, HostKey)
              && Some(service.port) == ParseInt(Setting(config, PortKey))
              && service.protocol == Setting(config, ProtocolKey)
              && service.from == Setting(config, FromKey)
              && (service.properties.smtpAuth ==> service.username == Setting(config, UsernameKey))
              && (!service.properties.smtpAuth ==> service.username.None? && service.password.None?)
              && (service.properties.smtpAuth && PasswordKey in config ==>
                    service.password == Some(decrypt(config[PasswordKey])))
  {
    match SettingsMap(settings)
    case Failure(e) => Failure(e)
    case Success(config) =>
      if !Enabled(config) then Success(None)
      else
        match BuildService(config, decrypt, SslFromConfig(config))
        case Failure(e) => Failure(e)
        case Success(service) => Success(Some(service))
  }

  /** `getEmailService(serverSettings)` as written, deciding SSL by
      `SslAsWritten`. It fails, and is absent, exactly where the intended
      definition is; a service it builds is the intended one with the SSL
      socket factory switched off. */
  function GetEmailServiceAsWritten(settings: seq<ServerSettings>, decrypt: string -> string): (r: Result<Option<EmailService>>)
    ensures r.Failure? <==> GetEmailService(settings, decrypt).Failure?
    ensures r.Failure? ==> r.error == GetEmailService(settings, decrypt).error
    ensures r.Success? ==> (r.value.Some? <==> GetEmailService(settings, decrypt).value.Some?)
    ensures r.Success? && r.value.Some? ==>
              var intended := GetEmailService(settings, decrypt).value.value;
              && !r.value.value.properties.sslSocketFactory
              && r.value.value == intended.(properties := intended.properties.(sslSocketFactory := false))
  {
    match SettingsMap(settings)
    case Failure(e) => Failure(e)
    case Success(config) =>
      if !Enabled(config) then Success(None)
      else
        SslSettingIgnoredAsWritten(config);
        match BuildService(config, decrypt, SslAsWritten(config))
        case Failure(e) => Failure(e)
        case Success(service) => Success(Some(service))
  }

  /** The two definitions part exactly on a built service whose SSL setting
      is enabled: there the intended one installs the SSL socket factory and
      the written one does not. */
  lemma AsWrittenDiffersExactlyOnSsl(settings: seq<ServerSettings>, decrypt: string -> string)
    ensures GetEmailServiceAsWritten(settings, decrypt) != GetEmailService(settings, decrypt) <==>
              && GetEmailService(settings, decrypt).Success?
              && GetEmailService(settings, decrypt).value.Some?
              && SslFromConfig(SettingsMap(settings).value)
  {
  }

  /** Email enabled on port 25 with the SSL setting "true": the intended
      service installs the SSL socket factory, the written one does not. */
  lemma SslEnabledSettingsIgnored(decrypt: string -> string)
    ensures var settings := [
              ServerSettings(EnabledKey, Some("true")),
              ServerSettings(PortKey, Some(Decimal(25))),
              ServerSettings(SslEnabledKey, Some("true"))];
            && GetEmailService(settings, decrypt).Success?
            && GetEmailService(settings, decrypt).value.Some?
            && GetEmailService(settings, decrypt).value.value.properties.sslSocketFactory
            && GetEmailServiceAsWritten(settings, decrypt) != GetEmailService(settings, decrypt)
  {
    var settings := [
      ServerSettings(EnabledKey, Some("true")),
      ServerSettings(PortKey, Some(Decimal(25))),
      ServerSettings(SslEnabledKey, Some("true"))];
    ParseDecimal(25);
    assert LowerAsciiString("true") == "true";
    assert SettingsMap(settings[2..]) == Success(map[SslEnabledKey := "true"]);
    assert settings[1..][1..] == settings[2..];
    assert SettingsMap(settings[1..]) == Success(map[SslEnabledKey := "true", PortKey := Decimal(25)]);
    assert SettingsMap(settings) == Success(map[SslEnabledKey := "true", PortKey := Decimal(25), EnabledKey := "true"]);
    AsWrittenDiffersExactlyOnSsl(settings, decrypt);
  }

  /** STARTTLS is only ever switched on together with SMTP authentication. */
  lemma StartTlsNeedsAuth(config: map<string, string>, decrypt: string -> string, ssl: bool)
    ensures BuildService(config, decrypt, ssl).Success? ==>
              var p := BuildService(config, decrypt, ssl).value.properties;
              p.startTlsEnable ==> p.smtpAuth
  {
  }

  // ---------------------------------------------------------------------
  // getEmailService(projectAttributes, serverSettings)

  /** The server-level service with the FROM address replaced by the
      project's, when the project enables email and names a sender.
      `projectConfig` is the project's configuration parameters. */
  function GetProjectEmailService(projectConfig: map<string, string>, settings: seq<ServerSettings>, decrypt: string -> string): (r: Result<Option<EmailService>>)
    ensures r.Failure? <==> GetEmailService(settings, decrypt).Failure?
    ensures r.Failure? ==> r.error == GetEmailService(settings, decrypt).error
    ensures r.Success? ==> (r.value.Some? <==> GetEmailService(settings, decrypt).value.Some?)
    ensures r.Success? && r.value.Some? ==>
              var server := GetEmailService(settings, decrypt).value.value;
              var overrides := ToBoolean(Setting(projectConfig, ProjectEmailEnabledKey)) && ProjectEmailFromKey in projectConfig;
              && r.value.value == server.(from := r.value.value.from)
              && (overrides ==> r.value.value.from == Some(projectConfig[ProjectEmailFromKey]))
              && (!overrides ==> r.value.value.from == server.from)
  {
    match GetEmailService(settings, decrypt)
    case Failure(e) => Failure(e)
    case Success(None) => Success(None)
    case Success(Some(service)) =>
      if |projectConfig| != 0 && ToBoolean(Setting(projectConfig, ProjectEmailEnabledKey)) && ProjectEmailFromKey in projectConfig then
        Success(Some(service.(from := Some(projectConfig[ProjectEmailFromKey]))))
      else
        Success(Some(service))
  }

  /** A project without notification settings gets the server-level service. */
  lemma EmptyProjectConfigKeepsServerService(settings: seq<ServerSettings>, decrypt: string -> string)
    ensures GetProjectEmailService(map[], settings, decrypt) == GetEmailService(settings, decrypt)
  {
  }

  // ---------------------------------------------------------------------
  // Connection checks

  /** `checkConnection`: a missing service, or one whose connection test
      fails, is an incorrect email configuration. `connects` is the outcome
      of the SMTP connection test. */
  function CheckConnection(service: Option<EmailService>, connects: EmailService -> bool): (r: Outcome)
    ensures r.Pass? <==> service.Some? && connects(service.value)
    ensures r.Fail? ==> r.error == ReportPortal(EmailConfigurationIsIncorrect)
  {
    match service
    case None => Fail(ReportPortal(EmailConfigurationIsIncorrect))
    case Some(s) => if connects(s) then Pass else Fail(ReportPortal(EmailConfigurationIsIncorrect))
  }

  /** The service a `getDefaultEmailService(..., checkConnection)` call
      returns once the service has been built: it must exist, and when asked
      its connection must succeed. */
  function RequireService(built: Result<Option<EmailService>>, checkConnection: bool, connects: EmailService -> bool): (r: Result<EmailService>)
    ensures built.Failure? ==> r == Failure(built.error)
    ensures built.Success? ==> (r.Success? <==> built.value.Some? && (checkConnection ==> connects(built.value.value)))
    ensures built.Success? && r.Failure? ==> r.error == ReportPortal(EmailConfigurationIsIncorrect)
    ensures r.Success? ==> built == Success(Some(r.value))
  {
    match built
    case Failure(e) => Failure(e)
    case Success(None) => Failure(ReportPortal(EmailConfigurationIsIncorrect))
    case Success(Some(service)) =>
      if checkConnection then
        match CheckConnection(Some(service), connects)
        case Pass => Success(service)
        case Fail(e) => Failure(e)
      else
        Success(service)
  }

  /** `getDefaultEmailService(checkConnection)`. */
  function GetDefaultEmailService(settings: seq<ServerSettings>, decrypt: string -> string, checkConnection: bool, connects: EmailService -> bool): (r: Result<EmailService>)
    ensures var built := GetEmailService(settings, decrypt);
            r.Success? <==> built.Success? && built.value.Some? && (checkConnection ==> connects(built.value.value))
    ensures r.Success? ==> GetEmailService(settings, decrypt) == Success(Some(r.value))
  {
    RequireService(GetEmailService(settings, decrypt), checkConnection, connects)
  }

  /** `getDefaultEmailService(projectAttributes, checkConnection)`. */
  function GetDefaultProjectEmailService(projectConfig: map<string, string>, settings: seq<ServerSettings>, decrypt: string -> string, checkConnection: bool, connects: EmailService -> bool): (r: Result<EmailService>)
    ensures var built := GetProjectEmailService(projectConfig, settings, decrypt);
            r.Success? <==> built.Success? && built.value.Some? && (checkConnection ==> connects(built.value.value))
    ensures r.Success? ==> GetProjectEmailService(projectConfig, settings, decrypt) == Success(Some(r.value))
  {
    RequireService(GetProjectEmailService(projectConfig, settings, decrypt), checkConnection, connects)
  }

  /** Skipping the connection test never turns a success into a failure. */
  lemma UncheckedAcceptsMore(settings: seq<ServerSettings>, decrypt: string -> string, connects: EmailService -> bool)
    ensures GetDefaultEmailService(settings, decrypt, true, connects).Success? ==>
              GetDefaultEmailService(settings, decrypt, false, connects) == GetDefaultEmailService(settings, decrypt, true, connects)
  {
  }
}
