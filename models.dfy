/** The stored records. Timestamps are not part of the model; ids are the
    store's auto-increment keys. */
module Models {
  import opened Numbers

  const RoleLighthouse: string := "lighthouse"
  const RoleStandard: string := "standard"

  datatype Node = Node(
    id: nat,
    name: string,
    role: string,
    subnetIP: string,
    subnetCIDR: string,
    subnetHost: string,
    publicIP: string,
    port: Int64,
    tags: string,
    downloadProxyMode: string,
    certificatePEM: string,
    privateKeyPEM: string,
    configContent: string)

  datatype CA = CA(
    id: nat,
    name: string,
    description: string,
    certificatePEM: string,
    privateKeyPEM: string)

  datatype NetworkSetting = NetworkSetting(
    id: nat,
    defaultSubnet: string,
    handshakePort: Int64,
    lighthouseHosts: string,
    certificateValidity: Int64,
    description: string)

  datatype ConfigTemplate = ConfigTemplate(
    id: nat,
    name: string,
    content: string)
}
