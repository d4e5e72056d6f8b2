/** The records of internal/cloud/factory.go. */
module CloudTypes {

  datatype Server = Server(id: string, name: string, flavor: string, image: string, status: string,
                           networks: seq<string>, tags: map<string, string>)

  datatype Subnet = Subnet(id: string, name: string, cidr: string)

  datatype Network = Network(id: string, name: string, cidr: string, subnets: seq<Subnet>)

  datatype SecurityRule = SecurityRule(id: string, direction: string, protocol: string, portRange: string,
                                       remoteIP: string, description: string)

  datatype SecurityGroup = SecurityGroup(id: string, name: string, rules: seq<SecurityRule>)

  datatype LoadBalancer = LoadBalancer(id: string, name: string, vip: string, members: seq<string>,
                                       protocol: string, port: int)

  datatype Volume = Volume(id: string, name: string, size: int, status: string, attachedTo: string)

  datatype FloatingIP = FloatingIP(id: string, address: string, status: string, attachedTo: string)

  datatype InfrastructureState = InfrastructureState(
    servers: seq<Server>, networks: seq<Network>, securityGroups: seq<SecurityGroup>,
    loadBalancers: seq<LoadBalancer>, volumes: seq<Volume>, floatingIPs: seq<FloatingIP>)

  datatype Severity = Info | Warning | Critical {
    function Rank(): nat {
      match this
      case Info => 0
      case Warning => 1
      case Critical => 2
    }
  }

  /** The values a drift item can show as expected or actual. */
  datatype Shown = Text(text: string) | List(items: seq<string>) | Number(n: int) | Rules(rules: seq<SecurityRule>)

  datatype DriftItem = DriftItem(resourceType: string, id: string, name: string, field: string,
                                 expected: Shown, actual: Shown, severity: Severity, reconcilable: bool)
}
