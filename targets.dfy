/** The fixed search keys of the patcher: the names and the literal it looks for. */
module Targets {

  /**
   * The login endpoint compiled into the game client. It is written as two
   * literals so that the verifier sees its characters; the value is the
   * single address `https://api.abrakam.com/v20170728/api/faeria/token/`.
   */
  const OriginalLoginApiAddress: string := "https://" + "api.abrakam.com/v20170728/api/faeria/token/"

  const GameServerIpField: string := "DEFAULT_SERVER_IP"
  const ServersIpField: string := "GAME_SERVERS_IPS_JSON_URL"
  const ServersStatusField: string := "SERVER_STATUS_JSON_URL"

  /** The name the compiler gives a type's static initializer. */
  const StaticConstructorName: string := ".cctor"

  const GameNamespace: string := "Abrakam"
  const WorldNetworkManager: string := "WorldNetworkManager"
  const ApplicationManager: string := "ApplicationManager"
  const AuthenticationManager: string := "AuthenticationManager"
  const NetworkManager: string := "NetworkManager"

  const SendEncryptedCommand: string := "SendEncryptedCommand"
  const SendCommand: string := "SendCommand"
  const SendNonSequencedEncryptedCommand: string := "SendNonSequencedEncryptedCommand"
  const SendNonSequencedCommand: string := "SendNonSequencedCommand"
}
